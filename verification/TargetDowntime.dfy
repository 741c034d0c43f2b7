/** Downtime of a single target in a summary: the lengths of its outages, clipped to the range and added up. */
module TargetDowntime {
  import opened Common
  import opened Sorting
  import opened OutageTable
  import opened InternetSweep

  ghost function CoveredBy(e: OutageEvent): int -> bool {
    (t: int) => Covers(e, t)
  }

  ghost function TargetDown(rows: seq<OutageEvent>, id: int): int -> bool {
    (t: int) => DownAt(rows, id, t)
  }

  function ClampedOutageMs(e: OutageEvent, from: int, to: int): int {
    var (start, end) := Clip(e, from, to);
    if end < start then 0 else end - start
  }

  /** A clamped length is the number of milliseconds of the range in which the event runs. */
  lemma ClampedIsMeasure(e: OutageEvent, from: int, to: int)
    ensures ClampedOutageMs(e, from, to) == Measure(CoveredBy(e), from, to)
  {
    var (start, end) := Clip(e, from, to);
    if start < end {
      MeasureSplit(CoveredBy(e), from, start, to);
      MeasureSplit(CoveredBy(e), start, end, to);
      MeasureConstant(CoveredBy(e), from, start, false);
      MeasureConstant(CoveredBy(e), start, end, true);
      MeasureConstant(CoveredBy(e), end, to, false);
    } else if from < to {
      MeasureConstant(CoveredBy(e), from, to, false);
    }
  }

  /** Milliseconds in which events of the target run, each counted once for every event that runs. */
  function RunningTotal(events: seq<OutageEvent>, id: int, lo: int, hi: int): nat
    decreases hi - lo
  {
    if hi <= lo then 0 else RunningTotal(events, id, lo, hi - 1) + Count(events, RunningAt(id, hi - 1))
  }

  lemma {:induction false} RunningTotalOfMore(events: seq<OutageEvent>, e: OutageEvent, longer: seq<OutageEvent>,
                                              id: int, lo: int, hi: int)
    requires e.target == id && longer == events + [e]
    ensures RunningTotal(longer, id, lo, hi) == RunningTotal(events, id, lo, hi) + Measure(CoveredBy(e), lo, hi)
    decreases hi - lo
  {
    if lo < hi {
      RunningTotalOfMore(events, e, longer, id, lo, hi - 1);
      assert longer[..|events|] == events;
    }
  }

  lemma {:induction false} RunningTotalOfNone(id: int, lo: int, hi: int)
    ensures RunningTotal([], id, lo, hi) == 0
    decreases hi - lo
  {
    if lo < hi {
      RunningTotalOfNone(id, lo, hi - 1);
    }
  }

  /** The range query loses nothing that runs in the range. */
  lemma {:induction false} RunningTotalIsListed(rows: seq<OutageEvent>, id: int, from: int, to: int, hi: int)
    requires id > 0 && hi <= to
    ensures RunningTotal(ListOutages(rows, from, to, id), id, from, hi) == RunningTotal(rows, id, from, hi)
    decreases hi - from
  {
    if from < hi {
      RunningTotalIsListed(rows, id, from, to, hi - 1);
      ListedCounts(rows, from, to, id, hi - 1);
    }
  }

  /** The total is at least the true downtime, and equal to it exactly if no two outages of the target overlap in the range. */
  lemma {:induction false} DowntimeIsOverestimated(rows: seq<OutageEvent>, id: int, lo: int, hi: int)
    ensures Measure(TargetDown(rows, id), lo, hi) <= RunningTotal(rows, id, lo, hi)
    ensures Measure(TargetDown(rows, id), lo, hi) == RunningTotal(rows, id, lo, hi) <==>
      (forall t :: lo <= t < hi ==> Count(rows, RunningAt(id, t)) <= 1)
    decreases hi - lo
  {
    if lo < hi {
      DowntimeIsOverestimated(rows, id, lo, hi - 1);
      DownAtIsCount(rows, id, hi - 1);
    }
  }

  lemma DisjointDowntime(rows: seq<OutageEvent>, id: int, lo: int, hi: int)
    ensures Disjoint(rows, id) ==> Measure(TargetDown(rows, id), lo, hi) == RunningTotal(rows, id, lo, hi)
  {
    DowntimeIsOverestimated(rows, id, lo, hi);
    if Disjoint(rows, id) {
      forall t | lo <= t < hi ensures Count(rows, RunningAt(id, t)) <= 1 {
        DownAtIsCount(rows, id, t);
      }
    }
  }

  /** The whole of an internet outage lies in the downtime of each of its targets. */
  lemma InternetWithinTarget(rows: seq<OutageEvent>, ids: seq<int>, i: nat, lo: int, hi: int)
    requires i < |ids|
    ensures Measure(AllDown(rows, ids), lo, hi) <= Measure(TargetDown(rows, ids[i]), lo, hi)
  {
    MeasureMonotone(AllDown(rows, ids), TargetDown(rows, ids[i]), lo, hi);
  }

  method TargetOutages(rows: seq<OutageEvent>, id: int, from: int, to: int) returns (count: int, outageMs: int)
    requires id > 0
    ensures count == Count(rows, (e: OutageEvent) => e.target == id && e.startedAt < to && (e.endedAt.None? || e.endedAt.value > from))
    ensures outageMs == RunningTotal(rows, id, from, to)
    ensures Measure(TargetDown(rows, id), from, to) <= outageMs
    ensures Disjoint(rows, id) ==> outageMs == Measure(TargetDown(rows, id), from, to)
  {
    var events := ListOutages(rows, from, to, id);
    OnlyListed(rows, from, to, id);
    CountIsFilterLength(rows, Listed(from, to, id));
    SameFilter(rows, Listed(from, to, id),
               (e: OutageEvent) => e.target == id && e.startedAt < to && (e.endedAt.None? || e.endedAt.value > from));
    RunningTotalOfNone(id, from, to);
    count, outageMs := 0, 0;
    for k := 0 to |events|
      invariant count == k && outageMs == RunningTotal(events[..k], id, from, to)
    {
      var e := events[k];
      assert e in events;
      RunningTotalOfMore(events[..k], e, events[..k + 1], id, from, to);
      ClampedIsMeasure(e, from, to);
      count := count + 1;
      outageMs := outageMs + ClampedOutageMs(e, from, to);
    }
    assert events[..|events|] == events;
    RunningTotalIsListed(rows, id, from, to, to);
    DowntimeIsOverestimated(rows, id, from, to);
    DisjointDowntime(rows, id, from, to);
  }
}
