/**
 What the API reports about internet outages when the table was written by the detector: the summary's downtime is the
 time during which all tier-3 targets were down, and the status page dates a running outage from the instant at which
 the summary's last interval begins.
 */
module OutageReport {
  import opened Common
  import opened Sorting
  import opened OutageTable
  import opened OutageMachine
  import opened OutageDetector
  import opened InternetSweep

  /** The last of the first k scanned rows that belongs to t began at start. */
  ghost predicate Began(rows: seq<OutageEvent>, scan: seq<int>, k: nat, t: int, start: int)
    requires k <= |scan| && InTable(rows, scan)
  {
    exists p :: 0 <= p < k && IsLast(rows, scan, k, t, p) && rows[scan[p] - 1].startedAt == start
  }

  ghost predicate IsLast(rows: seq<OutageEvent>, scan: seq<int>, k: nat, t: int, p: nat)
    requires p < k <= |scan| && InTable(rows, scan)
  {
    rows[scan[p] - 1].target == t && forall q :: p < q < k ==> rows[scan[q] - 1].target != t
  }

  lemma BeganEarlier(rows: seq<OutageEvent>, scan: seq<int>, k: nat, t: int, start: int)
    requires k < |scan| && InTable(rows, scan) && Began(rows, scan, k, t, start) && rows[scan[k] - 1].target != t
    ensures Began(rows, scan, k + 1, t, start)
  {
    var p :| 0 <= p < k && IsLast(rows, scan, k, t, p) && rows[scan[p] - 1].startedAt == start;
    assert IsLast(rows, scan, k + 1, t, p);
  }

  lemma BeganNow(rows: seq<OutageEvent>, scan: seq<int>, k: nat)
    requires k < |scan| && InTable(rows, scan)
    ensures Began(rows, scan, k + 1, rows[scan[k] - 1].target, rows[scan[k] - 1].startedAt)
  {
    assert IsLast(rows, scan, k + 1, rows[scan[k] - 1].target, k);
  }

  /** Rows in query order; for each target the last one wins. */
  method OpenByTarget(rows: seq<OutageEvent>, scan: seq<int>) returns (m: map<int, int>)
    requires InTable(rows, scan)
    ensures forall t :: t in m ==> Began(rows, scan, |scan|, t, m[t])
    ensures forall p :: 0 <= p < |scan| ==> rows[scan[p] - 1].target in m
  {
    m := map[];
    for k := 0 to |scan|
      invariant forall t :: t in m ==> Began(rows, scan, k, t, m[t])
      invariant forall p :: 0 <= p < k ==> rows[scan[p] - 1].target in m
    {
      var e := rows[scan[k] - 1];
      BeganNow(rows, scan, k);
      forall t | t in m && t != e.target ensures Began(rows, scan, k + 1, t, m[t]) {
        BeganEarlier(rows, scan, k, t, m[t]);
      }
      m := m[e.target := e.startedAt];
    }
  }

  ghost predicate IsDown(states: map<int, State>, t: int) {
    t in states && states[t] == Down
  }

  ghost predicate AreDown(states: map<int, State>, ids: seq<int>) {
    forall i :: 0 <= i < |ids| ==> IsDown(states, ids[i])
  }

  /** One of the targets is down since v, no down target went down later, and v is None only if no down target has a start. */
  ghost predicate Latest(starts: map<int, int>, states: map<int, State>, ids: seq<int>, v: Option<int>) {
    && (forall i :: 0 <= i < |ids| && IsDown(states, ids[i]) && ids[i] in starts ==> v.Some? && starts[ids[i]] <= v.value)
    && (v.Some? ==> exists i :: 0 <= i < |ids| && IsDown(states, ids[i]) && ids[i] in starts && starts[ids[i]] == v.value)
  }

  lemma LatestStep(starts: map<int, int>, states: map<int, State>, ids: seq<int>, id: int, v: Option<int>)
    requires Latest(starts, states, ids, v)
    ensures Latest(starts, states, ids + [id],
      if IsDown(states, id) && id in starts && (v.None? || starts[id] > v.value) then Some(starts[id]) else v)
  {
    var next := ids + [id];
    assert next[|ids|] == id;
    if v.Some? {
      var i :| 0 <= i < |ids| && IsDown(states, ids[i]) && ids[i] in starts && starts[ids[i]] == v.value;
      assert next[i] == ids[i];
    }
    forall i | 0 <= i < |ids| ensures next[i] == ids[i] {
    }
  }

  lemma AreDownStep(states: map<int, State>, ids: seq<int>, id: int)
    ensures AreDown(states, ids + [id]) <==> AreDown(states, ids) && IsDown(states, id)
  {
    var next := ids + [id];
    assert next[|ids|] == id;
    assert forall i :: 0 <= i < |ids| ==> next[i] == ids[i];
  }

  /** The internet part of the status page. */
  method InternetStatus(targets: seq<Target>, states: map<int, State>, starts: map<int, int>) returns (isDown: bool,
                        since: Option<int>)
    ensures var ids := Tier3(targets);
      && (isDown <==> |ids| > 0 && AreDown(states, ids))
      && (isDown ==> Latest(starts, states, ids, since))
      && (!isDown ==> since == None)
  {
    var total, down := 0, 0;
    since := None;
    ghost var ids: seq<int> := [];
    for k := 0 to |targets|
      invariant ids == Tier3(targets[..k])
      invariant total == |ids| && 0 <= down <= total
      invariant down == total <==> AreDown(states, ids)
      invariant Latest(starts, states, ids, since)
    {
      var t := targets[k];
      Tier3Step(targets, k);
      if t.enabled && t.tier == 3 {
        AreDownStep(states, ids, t.id);
        LatestStep(starts, states, ids, t.id, since);
        ids := ids + [t.id];
        total := total + 1;
        if t.id in states && states[t.id] == Down {
          down := down + 1;
          if t.id in starts && (since.None? || starts[t.id] > since.value) {
            since := Some(starts[t.id]);
          }
        }
      }
    }
    assert targets[..|targets|] == targets;
    isDown := total > 0 && down == total;
    if !isDown {
      since := None;
    }
  }

  lemma Tier3Step(targets: seq<Target>, k: nat)
    requires k < |targets|
    ensures Tier3(targets[..k + 1]) ==
      if targets[k].tier == 3 && targets[k].enabled then Tier3(targets[..k]) + [targets[k].id] else Tier3(targets[..k])
  {
    assert targets[..k + 1] == targets[..k] + [targets[k]];
    FilterStep(targets[..k], targets[k], IsTier3());
    var f := Filter(targets[..k], IsTier3());
    assert (f + [targets[k]])[..|f|] == f;
  }

  lemma Tier3IdsAreKeys(targets: seq<Target>, rows: seq<OutageEvent>, openIDs: map<int, int>, cores: map<int, Core>,
                        clock: map<int, int>)
    requires InStep(rows, openIDs, cores, clock)
    ensures AllDisjoint(rows, Tier3(targets))
    ensures forall i :: 0 <= i < |Tier3(targets)| ==> Separated(rows, Tier3(targets)[i])
  {
    var ids := Tier3(targets);
    forall i | 0 <= i < |ids| ensures Disjoint(rows, ids[i]) && Separated(rows, ids[i]) {
      InStepTable(rows, openIDs, cores, clock, ids[i]);
    }
  }

  /**
   Over a table that any reliable run of the detector wrote, the summary reports exactly the time all targets were down,
   in maximal intervals.
   */
  method SummaryOfRun(rows: seq<OutageEvent>, targets: seq<Target>, from: int, to: int,
                      ghost c: Thresholds, ghost steps: seq<Step>, ghost trace: seq<Book>)
    returns (uptimePct: real, count: int, totalMs: int, ghost ivs: seq<Interval>)
    requires IsRun(c, steps, trace) && Reliable(steps) && rows == trace[|steps|].rows
    requires AreKeys(targets) && from < to && |Tier3(targets)| > 0
    ensures totalMs == Measure(AllDown(rows, Tier3(targets)), from, to)
    ensures count == Measure(OutageBegins(rows, Tier3(targets), from), from, to)
    ensures uptimePct == 100.0 * (1.0 - totalMs as real / (to - from) as real)
    ensures AreOutages(rows, Tier3(targets), from, to, count, totalMs, ivs)
  {
    RunKeepsInStep(c, steps, trace);
    Tier3IdsAreKeys(targets, rows, trace[|steps|].openIDs, trace[|steps|].cores, ClockAfter(steps));
    uptimePct, count, totalMs, ivs := InternetOutageStats(rows, targets, from, to, k => true);
  }

  /**
   The detector can write such a table: the write that should end an outage of target 1 fails, and it goes down again.
   From then on the sweep reports an internet outage although target 2 was never down.
   */
  lemma FailedWriteMisleadsTheSweep()
    ensures IsRun(Thresholds(1, 1), FailedWriteSteps(), FailedWriteTrace())
    ensures var b := FailedWriteTrace()[3];
      Measure(Deep(b.rows, [1, 2]), 20, 30) == 10 && Measure(AllDown(b.rows, [1, 2]), 20, 30) == 0 && 2 !in b.cores
  {
    FailedWriteLeavesTwoOpenRows();
    OverlapMisleadsTheSweep(TWO_OPEN_ROWS);
  }

  ghost function States(cores: map<int, Core>): map<int, State> {
    map t | t in cores :: cores[t].state
  }

  /**
   When the status page shows an internet outage, the last outage that the summary counts in any window that reaches
   past its date lasts to the end of the window, and begins at that date or with the window; all targets are down
   throughout.
   */
  lemma StatusAgreesWithSummary(rows: seq<OutageEvent>, openIDs: map<int, int>, cores: map<int, Core>, clock: map<int, int>,
                                scan: seq<int>, starts: map<int, int>, ids: seq<int>, since: Option<int>, from: int, to: int,
                                count: int, totalMs: int, ivs: seq<Interval>)
    requires InStep(rows, openIDs, cores, clock) && IsScan(rows, scan)
    requires forall t :: t in starts ==> Began(rows, scan, |scan|, t, starts[t])
    requires forall p :: 0 <= p < |scan| ==> rows[scan[p] - 1].target in starts
    requires |ids| > 0 && AreDown(States(cores), ids) && Latest(starts, States(cores), ids, since)
    requires AreOutages(rows, ids, from, to, count, totalMs, ivs)
    ensures since.Some?
    ensures since.value < to && from < to ==>
      && |ivs| > 0 && ivs[|ivs| - 1] == Interval(Max(since.value, from), to)
      && (forall t :: Max(since.value, from) <= t < to ==> AllDown(rows, ids)(t))
  {
    var open := OpenRows(rows, openIDs, cores, clock, scan, starts, ids);
    assert IsDown(States(cores), ids[0]) && ids[0] in starts;
    assert forall i :: 0 <= i < |ids| ==> IsDown(States(cores), ids[i]);
    if since.value < to && from < to {
      assert AllDisjoint(rows, ids) by {
        forall i | 0 <= i < |ids| ensures Disjoint(rows, ids[i]) {
          InStepTable(rows, openIDs, cores, clock, ids[i]);
        }
      }
      forall i | 0 <= i < |ids|
        ensures open[i] < |rows| && rows[open[i]].target == ids[i] && rows[open[i]].endedAt.None?
        ensures ids[i] in starts && rows[open[i]].startedAt == starts[ids[i]]
      {
        assert IsOpenRow(rows, starts, ids[i], open[i]);
      }
      LastIntervalSince(rows, ids, open, since.value, from, to, count, totalMs, ivs);
    }
  }

  /** Row k is the open row of the target, and the target is dated by it. */
  ghost predicate IsOpenRow(rows: seq<OutageEvent>, starts: map<int, int>, t: int, k: nat) {
    k < |rows| && rows[k].target == t && rows[k].endedAt.None? && t in starts && rows[k].startedAt == starts[t]
  }

  lemma OpenRows(rows: seq<OutageEvent>, openIDs: map<int, int>, cores: map<int, Core>, clock: map<int, int>,
                 scan: seq<int>, starts: map<int, int>, ids: seq<int>) returns (open: seq<nat>)
    requires InStep(rows, openIDs, cores, clock) && IsScan(rows, scan)
    requires forall t :: t in starts ==> Began(rows, scan, |scan|, t, starts[t])
    requires forall p :: 0 <= p < |scan| ==> rows[scan[p] - 1].target in starts
    requires AreDown(States(cores), ids)
    ensures |open| == |ids| && forall i :: 0 <= i < |ids| ==> IsOpenRow(rows, starts, ids[i], open[i])
  {
    open := [];
    for k := 0 to |ids|
      invariant |open| == k && forall i :: 0 <= i < k ==> IsOpenRow(rows, starts, ids[i], open[i])
    {
      var row := OpenRowOf(rows, openIDs, cores, clock, scan, starts, ids, k);
      open := open + [row];
    }
  }

  lemma OpenRowOf(rows: seq<OutageEvent>, openIDs: map<int, int>, cores: map<int, Core>, clock: map<int, int>,
                  scan: seq<int>, starts: map<int, int>, ids: seq<int>, i: nat) returns (row: nat)
    requires InStep(rows, openIDs, cores, clock) && IsScan(rows, scan) && i < |ids|
    requires forall t :: t in starts ==> Began(rows, scan, |scan|, t, starts[t])
    requires forall p :: 0 <= p < |scan| ==> rows[scan[p] - 1].target in starts
    requires AreDown(States(cores), ids)
    ensures IsOpenRow(rows, starts, ids[i], row)
  {
    StartOfOpenRow(rows, openIDs, cores, clock, scan, starts, ids, i);
    row := openIDs[ids[i]] - 1;
  }

  lemma StartOfOpenRow(rows: seq<OutageEvent>, openIDs: map<int, int>, cores: map<int, Core>, clock: map<int, int>,
                       scan: seq<int>, starts: map<int, int>, ids: seq<int>, i: nat)
    requires InStep(rows, openIDs, cores, clock) && IsScan(rows, scan) && i < |ids|
    requires forall t :: t in starts ==> Began(rows, scan, |scan|, t, starts[t])
    requires forall p :: 0 <= p < |scan| ==> rows[scan[p] - 1].target in starts
    requires AreDown(States(cores), ids)
    ensures ids[i] in openIDs && ids[i] in starts && rows[openIDs[ids[i]] - 1].startedAt == starts[ids[i]]
  {
    var t := ids[i];
    assert IsDown(States(cores), t);
    assert t in cores && cores[t].state == Down;
    InScan(rows, scan, starts, openIDs[t]);
    StartFromScan(rows, scan, t, starts[t], openIDs[t]);
  }

  lemma InScan(rows: seq<OutageEvent>, scan: seq<int>, starts: map<int, int>, id: int)
    requires IsScan(rows, scan) && 1 <= id <= |rows| && rows[id - 1].endedAt.None?
    requires forall p :: 0 <= p < |scan| ==> rows[scan[p] - 1].target in starts
    ensures rows[id - 1].target in starts
  {
    assert id in scan;
    var q :| 0 <= q < |scan| && scan[q] == id;
  }

  /** The only open row of a target is the one that the scan dates it by. */
  lemma StartFromScan(rows: seq<OutageEvent>, scan: seq<int>, t: int, start: int, id: int)
    requires IsScan(rows, scan) && Began(rows, scan, |scan|, t, start)
    requires 1 <= id <= |rows|
    requires forall k :: 0 <= k < |rows| && rows[k].endedAt.None? && rows[k].target == t ==> k == id - 1
    ensures rows[id - 1].startedAt == start
  {
    var p :| 0 <= p < |scan| && IsLast(rows, scan, |scan|, t, p) && rows[scan[p] - 1].startedAt == start;
    assert scan[p] in scan;
  }
}
