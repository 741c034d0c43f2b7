/**
 The detector: one machine per target, a row in the outage table per outage, and openIDs, which must keep naming the
 open row of every target that is down, across restarts and failing store operations.
 */
module OutageDetector {
  import opened Common
  import opened OutageTable
  import opened OutageMachine

  // ----- the startup scan -----

  /** Row scan[q] is an open row of the same target as scan[p] and was inserted later. */
  ghost predicate Newer(rows: seq<OutageEvent>, scan: seq<int>, p: nat, q: nat)
    requires p < |scan| && q < |scan| && InTable(rows, scan)
  {
    rows[scan[q] - 1].target == rows[scan[p] - 1].target && scan[q] > scan[p]
  }

  /** The first of the first k scanned rows that is newer than scan[p]. */
  ghost function FirstNewer(rows: seq<OutageEvent>, scan: seq<int>, p: nat, k: nat): (r: Option<nat>)
    requires p < |scan| && k <= |scan| && InTable(rows, scan)
    ensures r.Some? ==> r.value < k && Newer(rows, scan, p, r.value)
  {
    if k == 0 then None
    else if FirstNewer(rows, scan, p, k - 1).Some? then FirstNewer(rows, scan, p, k - 1)
    else if Newer(rows, scan, p, k - 1) then Some(k - 1)
    else None
  }

  /**
   What scanning the first k rows makes of row scan[p]. As soon as both it and a newer row of its target have been
   scanned it is closed, at the start of whichever of the two was scanned last.
   */
  ghost function Settled(rows: seq<OutageEvent>, scan: seq<int>, p: nat, k: nat, works: nat -> bool): OutageEvent
    requires p < |scan| && k <= |scan| && InTable(rows, scan)
  {
    var row := rows[scan[p] - 1];
    match FirstNewer(rows, scan, p, k)
    case None => row
    case Some(q) =>
      var last := Max(p, q);
      if works(last) then row.(endedAt := Some(rows[scan[last] - 1].startedAt)) else row
  }

  /** Row scan[p] once the first k rows have been scanned. */
  ghost function AfterScan(rows: seq<OutageEvent>, scan: seq<int>, p: nat, k: nat, works: nat -> bool): OutageEvent
    requires p < |scan| && k <= |scan| && InTable(rows, scan)
  {
    if p < k then Settled(rows, scan, p, k, works) else rows[scan[p] - 1]
  }

  /** The table once the first k rows have been scanned. */
  ghost predicate RowsScanned(before: seq<OutageEvent>, scan: seq<int>, k: nat, works: nat -> bool, rows: seq<OutageEvent>)
    requires k <= |scan| && InTable(before, scan)
  {
    && |rows| == |before|
    && (forall i :: 0 <= i < |rows| && i + 1 !in scan ==> rows[i] == before[i])
    && (forall p :: 0 <= p < |scan| ==> rows[scan[p] - 1] == AfterScan(before, scan, p, k, works))
  }

  /** The newest row of a target among the first k scanned rows. */
  ghost function Newest(before: seq<OutageEvent>, scan: seq<int>, k: nat, t: int): (r: Option<int>)
    requires k <= |scan| && InTable(before, scan)
  {
    if k == 0 then None
    else if before[scan[k - 1] - 1].target == t then
      match Newest(before, scan, k - 1, t)
      case Some(id) => Some(Max(id, scan[k - 1]))
      case None => Some(scan[k - 1])
    else Newest(before, scan, k - 1, t)
  }

  lemma {:induction false} NewestIsScanned(before: seq<OutageEvent>, scan: seq<int>, k: nat, t: int) returns (p: nat)
    requires k <= |scan| && InTable(before, scan) && Newest(before, scan, k, t).Some?
    ensures p < k && Newest(before, scan, k, t) == Some(scan[p]) && before[scan[p] - 1].target == t
  {
    p := k - 1;
    if before[scan[p] - 1].target != t || (Newest(before, scan, k - 1, t).Some? && Newest(before, scan, k - 1, t).value > scan[p]) {
      p := NewestIsScanned(before, scan, k - 1, t);
    }
  }

  ghost predicate IdsScanned(before: seq<OutageEvent>, scan: seq<int>, k: nat, openIDs: map<int, int>)
    requires k <= |scan| && InTable(before, scan)
  {
    forall t :: if t in openIDs then Newest(before, scan, k, t) == Some(openIDs[t]) else Newest(before, scan, k, t) == None
  }

  lemma IdsStep(before: seq<OutageEvent>, scan: seq<int>, k: nat, openIDs: map<int, int>)
    requires k < |scan| && InTable(before, scan) && IdsScanned(before, scan, k, openIDs)
    ensures var t := before[scan[k] - 1].target;
      && (Newest(before, scan, k, t) == if t in openIDs then Some(openIDs[t]) else None)
      && IdsScanned(before, scan, k + 1, openIDs[t := if t in openIDs then Max(openIDs[t], scan[k]) else scan[k]])
  {
  }

  /** Newest is an upper bound, so a row has a newer one exactly if it is not the newest. */
  lemma {:induction false} NewestIsNewest(before: seq<OutageEvent>, scan: seq<int>, k: nat, p: nat)
    requires k <= |scan| && IsScan(before, scan) && p < |scan|
    ensures var newest := Newest(before, scan, k, before[scan[p] - 1].target);
      && (p < k ==> newest.Some?)
      && (FirstNewer(before, scan, p, k).Some? <==> newest.Some? && newest.value > scan[p])
      && (p < k && newest.value <= scan[p] ==> newest.value == scan[p])
  {
    if k > 0 {
      NewestIsNewest(before, scan, k - 1, p);
      assert p != k - 1 ==> scan[p] != scan[k - 1];
    }
  }

  /** What the source does with the k-th scanned row: it closes the older of two rows at the start of the scanned one. */
  ghost function CloseOlder(before: seq<OutageEvent>, scan: seq<int>, k: nat, works: nat -> bool,
                            rows: seq<OutageEvent>): seq<OutageEvent>
    requires k < |scan| && InTable(before, scan)
  {
    var e := before[scan[k] - 1];
    match Newest(before, scan, k, e.target)
    case Some(id) => if works(k) then Ended(rows, Min(id, scan[k]), e.startedAt) else rows
    case None => rows
  }

  lemma SettledEarlier(before: seq<OutageEvent>, scan: seq<int>, k: nat, works: nat -> bool, row: OutageEvent, p: nat)
    requires p < k < |scan| && IsScan(before, scan)
    requires row == Settled(before, scan, p, k, works)
    ensures Settled(before, scan, p, k + 1, works) ==
      if Newest(before, scan, k, before[scan[k] - 1].target) == Some(scan[p]) && scan[p] < scan[k] && works(k)
      then row.(endedAt := Some(before[scan[k] - 1].startedAt)) else row
  {
    NewestIsNewest(before, scan, k, p);
    if Newest(before, scan, k, before[scan[k] - 1].target) == Some(scan[p]) {
      var q := NewestIsScanned(before, scan, k, before[scan[k] - 1].target);
    }
  }

  lemma SettledNow(before: seq<OutageEvent>, scan: seq<int>, k: nat, works: nat -> bool)
    requires k < |scan| && IsScan(before, scan)
    ensures var e := before[scan[k] - 1]; var newest := Newest(before, scan, k, e.target);
      Settled(before, scan, k, k + 1, works) ==
      if newest.Some? && newest.value > scan[k] && works(k) then e.(endedAt := Some(e.startedAt)) else e
  {
    NewestIsNewest(before, scan, k, k);
  }

  /** The newest row among those scanned before is not the row scanned now. */
  lemma NewestIsAnother(before: seq<OutageEvent>, scan: seq<int>, k: nat)
    requires k < |scan| && IsScan(before, scan)
    ensures var newest := Newest(before, scan, k, before[scan[k] - 1].target);
      newest.Some? ==> newest.value != scan[k] && newest.value in scan && 1 <= newest.value <= |before|
  {
    if Newest(before, scan, k, before[scan[k] - 1].target).Some? {
      var p := NewestIsScanned(before, scan, k, before[scan[k] - 1].target);
      assert scan[p] != scan[k];
    }
  }

  /** What the k-th scanned row does to the row of any other position p. */
  lemma StepAt(before: seq<OutageEvent>, scan: seq<int>, k: nat, works: nat -> bool, rows: seq<OutageEvent>, p: nat)
    requires k < |scan| && IsScan(before, scan) && p < |scan| && |rows| == |before|
    requires rows[scan[p] - 1] == AfterScan(before, scan, p, k, works)
    ensures CloseOlder(before, scan, k, works, rows)[scan[p] - 1] == AfterScan(before, scan, p, k + 1, works)
  {
    NewestIsAnother(before, scan, k);
    if p < k {
      SettledEarlier(before, scan, k, works, rows[scan[p] - 1], p);
      assert scan[p] != scan[k];
    } else if p == k {
      SettledNow(before, scan, k, works);
    } else {
      assert scan[p] != scan[k];
      if Newest(before, scan, k, before[scan[k] - 1].target).Some? {
        var q := NewestIsScanned(before, scan, k, before[scan[k] - 1].target);
        assert scan[q] != scan[p];
      }
    }
  }

  lemma RowsStep(before: seq<OutageEvent>, scan: seq<int>, k: nat, works: nat -> bool, rows: seq<OutageEvent>)
    requires k < |scan| && IsScan(before, scan)
    requires RowsScanned(before, scan, k, works, rows)
    ensures RowsScanned(before, scan, k + 1, works, CloseOlder(before, scan, k, works, rows))
  {
    var rows' := CloseOlder(before, scan, k, works, rows);
    forall p | 0 <= p < |scan| ensures rows'[scan[p] - 1] == AfterScan(before, scan, p, k + 1, works) {
      StepAt(before, scan, k, works, rows, p);
    }
    UnscannedStays(before, scan, k, works, rows);
  }

  lemma UnscannedStays(before: seq<OutageEvent>, scan: seq<int>, k: nat, works: nat -> bool, rows: seq<OutageEvent>)
    requires k < |scan| && IsScan(before, scan) && |rows| == |before|
    ensures forall i :: 0 <= i < |rows| && i + 1 !in scan ==> CloseOlder(before, scan, k, works, rows)[i] == rows[i]
  {
    var newest := Newest(before, scan, k, before[scan[k] - 1].target);
    if newest.Some? {
      NewestIsAnother(before, scan, k);
      var id := Min(newest.value, scan[k]);
      assert id in scan;
    }
  }

  // ----- agreement between machines, openIDs and the table -----

  /** Each open id names an open row of a target whose machine is Down. */
  ghost predicate Agrees(rows: seq<OutageEvent>, openIDs: map<int, int>, cores: map<int, Core>) {
    forall t :: t in openIDs ==>
      && t in cores && cores[t].state == Down
      && 1 <= openIDs[t] <= |rows|
      && rows[openIDs[t] - 1].target == t && rows[openIDs[t] - 1].endedAt.None?
  }

  /** The latest time a row mentions. */
  ghost function Stamp(e: OutageEvent): int {
    if e.endedAt.Some? then e.endedAt.value else e.startedAt
  }

  ghost predicate StampedBefore(rows: seq<OutageEvent>, t: int, ts: int) {
    forall i :: 0 <= i < |rows| && rows[i].target == t ==> Stamp(rows[i]) < ts
  }

  /** Each target's rows are ordered in time, with a gap between one outage and the next. */
  ghost predicate Chained(rows: seq<OutageEvent>) {
    && (forall i :: 0 <= i < |rows| && rows[i].endedAt.Some? ==> rows[i].startedAt <= rows[i].endedAt.value)
    && (forall i, j :: 0 <= i < j < |rows| && rows[i].target == rows[j].target ==>
         rows[i].endedAt.Some? && rows[i].endedAt.value < rows[j].startedAt)
  }

  /** The run that may cause the next transition of t began after everything the table says about t. */
  ghost predicate Ahead(rows: seq<OutageEvent>, clock: map<int, int>, t: int, m: Core) {
    var run := Pending(m);
    run.Some? ==> StampedBefore(rows, t, run.value) && t in clock && run.value <= clock[t]
  }

  /** What holds as long as the store works and time moves forward: a row is open exactly while its target is Down. */
  ghost predicate InStep(rows: seq<OutageEvent>, openIDs: map<int, int>, cores: map<int, Core>, clock: map<int, int>) {
    && Agrees(rows, openIDs, cores)
    && (forall t :: t in cores && cores[t].state == Down ==> t in openIDs)
    && (forall i :: 0 <= i < |rows| && rows[i].endedAt.None? ==> rows[i].target in openIDs && openIDs[rows[i].target] == i + 1)
    && (forall i :: 0 <= i < |rows| ==> rows[i].target in clock && Stamp(rows[i]) <= clock[rows[i].target])
    && Chained(rows)
    && (forall t :: t in cores ==> Ahead(rows, clock, t, cores[t]))
  }

  ghost function CoreOf(cores: map<int, Core>, t: int): Core {
    if t in cores then cores[t] else Fresh(Unknown)
  }

  /** The table and openIDs after a transition, if the store operation works or if it fails. */
  ghost function Persisted(rows: seq<OutageEvent>, openIDs: map<int, int>, tr: Option<Transition>,
                           works: bool): (seq<OutageEvent>, map<int, int>) {
    match tr
    case None => (rows, openIDs)
    case Some(Transition(t, WentDown, at)) =>
      if works then (rows + [OutageEvent(t, at, None)], openIDs[t := |rows| + 1]) else (rows, openIDs)
    case Some(Transition(t, WentUp, at)) =>
      if t !in openIDs then (rows, openIDs)
      else (if works then Ended(rows, openIDs[t], at) else rows, openIDs - {t})
  }

  ghost predicate Later(clock: map<int, int>, t: int, ts: int) {
    t in clock ==> clock[t] < ts
  }

  lemma OtherTargetsAhead(rows: seq<OutageEvent>, rows': seq<OutageEvent>, clock: map<int, int>, t: int, ts: int, u: int, m: Core)
    requires u != t && Ahead(rows, clock, u, m)
    requires |rows| <= |rows'|
    requires forall i :: 0 <= i < |rows'| && rows'[i].target == u ==> i < |rows| && rows'[i] == rows[i]
    ensures Ahead(rows', clock[t := ts], u, m)
  {
  }

  lemma QuietInStep(rows: seq<OutageEvent>, openIDs: map<int, int>, cores: map<int, Core>, clock: map<int, int>,
                    t: int, ts: int, m: Core)
    requires InStep(rows, openIDs, cores, clock) && (t in clock ==> clock[t] <= ts)
    requires m.state == Down <==> t in openIDs
    requires Ahead(rows, clock[t := ts], t, m)
    ensures InStep(rows, openIDs, cores[t := m], clock[t := ts])
  {
    forall u | u in cores && u != t ensures Ahead(rows, clock[t := ts], u, cores[u]) {
      OtherTargetsAhead(rows, rows, clock, t, ts, u, cores[u]);
    }
  }

  lemma DownInStep(rows: seq<OutageEvent>, openIDs: map<int, int>, cores: map<int, Core>, clock: map<int, int>,
                   t: int, at: int, ts: int, m: Core)
    requires InStep(rows, openIDs, cores, clock) && Later(clock, t, ts)
    requires t !in openIDs && StampedBefore(rows, t, at) && at <= ts
    requires m.state == Down && Pending(m) == None
    ensures InStep(rows + [OutageEvent(t, at, None)], openIDs[t := |rows| + 1], cores[t := m], clock[t := ts])
  {
    var rows' := rows + [OutageEvent(t, at, None)];
    forall u | u in cores && u != t ensures Ahead(rows', clock[t := ts], u, cores[u]) {
      OtherTargetsAhead(rows, rows', clock, t, ts, u, cores[u]);
    }
    AppendedIsChained(rows, t, at);
  }

  lemma AppendedIsChained(rows: seq<OutageEvent>, t: int, at: int)
    requires Chained(rows) && StampedBefore(rows, t, at)
    requires forall i :: 0 <= i < |rows| && rows[i].target == t ==> rows[i].endedAt.Some?
    ensures Chained(rows + [OutageEvent(t, at, None)])
  {
    forall i | 0 <= i < |rows| && rows[i].target == t ensures rows[i].endedAt.value < at {
      assert Stamp(rows[i]) < at;
    }
  }

  /** Ending the only row of t that is still open, after all stamps of t. */
  lemma EndedIsChained(rows: seq<OutageEvent>, id: int, t: int, at: int)
    requires Chained(rows) && 1 <= id <= |rows| && rows[id - 1].target == t && rows[id - 1].endedAt.None?
    requires rows[id - 1].startedAt <= at
    ensures Chained(Ended(rows, id, at))
  {
    assert forall j :: id - 1 < j < |rows| ==> rows[j].target != t;
  }

  /** Closing a row and forgetting its machine, at a time that is not earlier than anything known about the target. */
  lemma CloseInStep(rows: seq<OutageEvent>, openIDs: map<int, int>, cores: map<int, Core>, clock: map<int, int>,
                    t: int, at: int, ts: int)
    requires InStep(rows, openIDs, cores, clock) && t in openIDs
    requires StampedBefore(rows, t, at + 1) && at <= ts && (t in clock ==> clock[t] <= ts)
    ensures InStep(Ended(rows, openIDs[t], at), openIDs - {t}, cores - {t}, clock[t := ts])
  {
    var id := openIDs[t];
    var rows' := Ended(rows, id, at);
    assert Stamp(rows[id - 1]) < at + 1;
    EndedIsChained(rows, id, t, at);
    forall u | u in cores && u != t ensures Ahead(rows', clock[t := ts], u, cores[u]) {
      OtherTargetsAhead(rows, rows', clock, t, ts, u, cores[u]);
    }
  }

  lemma UpInStep(rows: seq<OutageEvent>, openIDs: map<int, int>, cores: map<int, Core>, clock: map<int, int>, t: int,
                 at: int, ts: int, m: Core)
    requires InStep(rows, openIDs, cores, clock) && Later(clock, t, ts)
    requires t in openIDs && StampedBefore(rows, t, at) && at <= ts
    requires m.state != Down && Pending(m) == None
    ensures InStep(Ended(rows, openIDs[t], at), openIDs - {t}, cores[t := m], clock[t := ts])
  {
    CloseInStep(rows, openIDs, cores, clock, t, at, ts);
    assert (cores - {t})[t := m] == cores[t := m];
    AddCoreInStep(Ended(rows, openIDs[t], at), openIDs - {t}, cores - {t}, clock[t := ts], t, m);
  }

  lemma AddCoreInStep(rows: seq<OutageEvent>, openIDs: map<int, int>, cores: map<int, Core>, clock: map<int, int>,
                      t: int, m: Core)
    requires InStep(rows, openIDs, cores, clock) && t !in openIDs && m.state != Down && Pending(m) == None
    ensures InStep(rows, openIDs, cores[t := m], clock)
  {
  }

  /** A sample, with a store that works, keeps everything in step. */
  lemma FeedInStep(c: Thresholds, rows: seq<OutageEvent>, openIDs: map<int, int>, cores: map<int, Core>,
                   clock: map<int, int>, s: Sample)
    requires InStep(rows, openIDs, cores, clock) && Later(clock, s.target, s.ts)
    ensures var (m, tr) := Next(c, CoreOf(cores, s.target), s);
      var next := Persisted(rows, openIDs, tr, true);
      InStep(next.0, next.1, cores[s.target := m], clock[s.target := s.ts])
  {
    var t := s.target;
    var before := CoreOf(cores, t);
    var (m, tr) := Next(c, before, s);
    NextFlips(c, before, s);
    assert StampedBefore(rows, t, s.ts);
    assert Ahead(rows, clock, t, before);
    assert before.state == Down <==> t in openIDs;
    if tr.None? {
      QuietInStep(rows, openIDs, cores, clock, t, s.ts, m);
    } else if tr.value.kind == WentDown {
      DownInStep(rows, openIDs, cores, clock, t, tr.value.at, s.ts, m);
    } else {
      UpInStep(rows, openIDs, cores, clock, t, tr.value.at, s.ts, m);
    }
  }

  /** Without any promise about the store or the clock, openIDs still names only open rows of targets that are Down. */
  lemma FeedAgrees(c: Thresholds, rows: seq<OutageEvent>, openIDs: map<int, int>, cores: map<int, Core>, s: Sample, works: bool)
    requires Agrees(rows, openIDs, cores)
    ensures var (m, tr) := Next(c, CoreOf(cores, s.target), s);
      var next := Persisted(rows, openIDs, tr, works);
      Agrees(next.0, next.1, cores[s.target := m])
  {
    NextFlips(c, CoreOf(cores, s.target), s);
  }

  /** The outcome of the startup scan. */
  ghost predicate Resumed(before: seq<OutageEvent>, scan: seq<int>, works: nat -> bool, rows: seq<OutageEvent>,
                          openIDs: map<int, int>, cores: map<int, Core>) {
    && IsScan(before, scan)
    && RowsScanned(before, scan, |scan|, works, rows)
    && IdsScanned(before, scan, |scan|, openIDs)
    && cores.Keys == openIDs.Keys && forall t :: t in cores ==> cores[t] == Fresh(Down)
  }

  lemma ResumedAgrees(before: seq<OutageEvent>, scan: seq<int>, works: nat -> bool, rows: seq<OutageEvent>,
                      openIDs: map<int, int>, cores: map<int, Core>)
    requires Resumed(before, scan, works, rows, openIDs, cores)
    ensures Agrees(rows, openIDs, cores)
  {
    forall t | t in openIDs
      ensures 1 <= openIDs[t] <= |rows| && rows[openIDs[t] - 1].target == t && rows[openIDs[t] - 1].endedAt.None?
    {
      assert Newest(before, scan, |scan|, t) == Some(openIDs[t]);
      var p := NewestIsScanned(before, scan, |scan|, t);
      NewestIsNewest(before, scan, |scan|, p);
      assert rows[scan[p] - 1] == AfterScan(before, scan, p, |scan|, works);
      assert scan[p] in scan;
    }
  }

  /**
   After a scan whose writes worked, every target that had an open row has exactly one, its newest. Every other row
   that was open is closed: at its own start if a newer row had been scanned before it, and otherwise at the start of
   the first newer row that was scanned.
   */
  lemma ResumeRepairs(before: seq<OutageEvent>, scan: seq<int>, works: nat -> bool, rows: seq<OutageEvent>,
                      openIDs: map<int, int>, cores: map<int, Core>, p: nat)
    requires Resumed(before, scan, works, rows, openIDs, cores) && p < |scan|
    requires forall k :: works(k)
    ensures var row, row' := before[scan[p] - 1], rows[scan[p] - 1]; var newer := FirstNewer(before, scan, p, |scan|);
      && row.target in openIDs && openIDs[row.target] >= scan[p]
      && (row'.endedAt.None? <==> openIDs[row.target] == scan[p])
      && (row'.endedAt.Some? <==> newer.Some?)
      && (newer.Some? ==> row'.endedAt == Some(if newer.value < p then row.startedAt else before[scan[newer.value] - 1].startedAt))
  {
    NewestIsNewest(before, scan, |scan|, p);
    assert rows[scan[p] - 1] == AfterScan(before, scan, p, |scan|, works);
    assert scan[p] in scan;
    var t := before[scan[p] - 1].target;
    assert Newest(before, scan, |scan|, t) == Some(openIDs[t]);
  }

  /** A scan in which no row has a newer one changes nothing. */
  lemma NothingToRepair(before: seq<OutageEvent>, scan: seq<int>, works: nat -> bool, rows: seq<OutageEvent>)
    requires IsScan(before, scan) && RowsScanned(before, scan, |scan|, works, rows)
    requires forall p :: 0 <= p < |scan| ==> FirstNewer(before, scan, p, |scan|).None?
    ensures rows == before
  {
    forall i | 0 <= i < |before| ensures rows[i] == before[i] {
      if i + 1 in scan {
        var p :| 0 <= p < |scan| && scan[p] == i + 1;
        assert rows[scan[p] - 1] == AfterScan(before, scan, p, |scan|, works);
      }
    }
  }

  /** While the detector was in step each target has at most one open row, so a restart repairs nothing and loses nothing. */
  lemma RestartInStep(before: seq<OutageEvent>, openIDs: map<int, int>, cores: map<int, Core>, clock: map<int, int>,
                      scan: seq<int>, works: nat -> bool, rows: seq<OutageEvent>, openIDs': map<int, int>, cores': map<int, Core>)
    requires InStep(before, openIDs, cores, clock)
    requires Resumed(before, scan, works, rows, openIDs', cores')
    ensures rows == before && openIDs' == openIDs && InStep(rows, openIDs', cores', clock)
  {
    forall p | 0 <= p < |scan| ensures FirstNewer(before, scan, p, |scan|).None? {
      OnlyOpenRow(before, openIDs, cores, clock, scan, p);
    }
    NothingToRepair(before, scan, works, rows);
    forall t ensures t in openIDs <==> t in openIDs'
             ensures t in openIDs ==> openIDs[t] == openIDs'[t]
    {
      SameOpenId(before, openIDs, cores, clock, scan, t);
    }
    assert openIDs' == openIDs;
    forall t | t in cores' ensures Ahead(rows, clock, t, cores'[t]) {
      assert cores'[t] == Fresh(Down);
    }
  }

  lemma OnlyOpenRow(before: seq<OutageEvent>, openIDs: map<int, int>, cores: map<int, Core>, clock: map<int, int>,
                    scan: seq<int>, p: nat)
    requires InStep(before, openIDs, cores, clock) && IsScan(before, scan) && p < |scan|
    ensures FirstNewer(before, scan, p, |scan|).None?
    ensures openIDs.Keys >= {before[scan[p] - 1].target} && openIDs[before[scan[p] - 1].target] == scan[p]
  {
    assert scan[p] in scan;
    var newer := FirstNewer(before, scan, p, |scan|);
    assert forall q :: 0 <= q < |scan| ==> scan[q] in scan;
  }

  lemma SameOpenId(before: seq<OutageEvent>, openIDs: map<int, int>, cores: map<int, Core>, clock: map<int, int>,
                   scan: seq<int>, t: int)
    requires InStep(before, openIDs, cores, clock) && IsScan(before, scan)
    ensures Newest(before, scan, |scan|, t) == if t in openIDs then Some(openIDs[t]) else None
  {
    if t in openIDs {
      assert openIDs[t] in scan;
      var p :| 0 <= p < |scan| && scan[p] == openIDs[t];
      NewestIsNewest(before, scan, |scan|, p);
    }
    if Newest(before, scan, |scan|, t).Some? {
      var p := NewestIsScanned(before, scan, |scan|, t);
      OnlyOpenRow(before, openIDs, cores, clock, scan, p);
    }
  }

  /** Forgetting a deleted target, with a store that works, at a time that is not in its past. */
  lemma ForgetInStep(rows: seq<OutageEvent>, openIDs: map<int, int>, cores: map<int, Core>, clock: map<int, int>, t: int, ts: int)
    requires InStep(rows, openIDs, cores, clock) && (t in clock ==> clock[t] <= ts)
    ensures var next := Persisted(rows, openIDs, Some(Transition(t, WentUp, ts)), true);
      InStep(next.0, next.1, cores - {t}, clock[t := ts])
  {
    if t in openIDs {
      assert StampedBefore(rows, t, ts + 1);
      CloseInStep(rows, openIDs, cores, clock, t, ts, ts);
    } else {
      QuietInStep(rows, openIDs, cores, clock, t, ts, Fresh(Unknown));
    }
  }

  class Detector {
    const store: Store
    const failN: int
    const okN: int
    var machines: map<int, Machine>
    var openIDs: map<int, int>
    ghost var cores: map<int, Core>
    ghost var repr: set<Machine>

    ghost function Limits(): Thresholds {
      Thresholds(failN, okN)
    }

    /** Every target has a machine of its own, and cores records the fields of each. */
    ghost predicate MachinesValid()
      reads this, repr
    {
      && machines.Keys == cores.Keys
      && (forall t :: t in machines ==> machines[t] in repr && machines[t].failN == failN && machines[t].okN == okN)
      && (forall t :: t in machines ==> machines[t].Fields() == cores[t])
      && (forall t, u :: t in machines && u in machines && t != u ==> machines[t] != machines[u])
    }

    ghost predicate Valid()
      reads this, store, repr
    {
      MachinesValid() && Agrees(store.rows, openIDs, cores)
    }

    constructor (store: Store, failN: int, okN: int)
      ensures Valid() && this.store == store && this.failN == failN && this.okN == okN
      ensures machines == map[] && openIDs == map[] && cores == map[] && repr == {}
    {
      this.store, this.failN, this.okN := store, failN, okN;
      machines, openIDs, cores, repr := map[], map[], map[], {};
    }

    /** Every target with an open id has a machine that has seen nothing and is Down. */
    ghost predicate AllResumed()
      reads this
    {
      cores.Keys == openIDs.Keys && forall t :: t in cores ==> cores[t] == Fresh(Down)
    }

    /** One row of the startup scan. */
    method ResumeRow(id: int, e: OutageEvent, works: bool)
      requires MachinesValid() && AllResumed()
      modifies this`machines, this`cores, this`repr, this`openIDs, store
      ensures MachinesValid() && fresh(repr - old(repr)) && AllResumed()
      ensures var existing := if e.target in old(openIDs) then Some(old(openIDs)[e.target]) else None;
        && openIDs == old(openIDs)[e.target := if existing.Some? then Max(existing.value, id) else id]
        && store.rows == if existing.Some? && works then Ended(old(store.rows), Min(existing.value, id), e.startedAt) else old(store.rows)
    {
      if e.target in openIDs {
        var existing := openIDs[e.target];
        var stale := Min(existing, id);
        var keep := Max(existing, id);
        openIDs := openIDs[e.target := keep];
        store.CloseOutage(stale, e.startedAt, works);
      } else {
        openIDs := openIDs[e.target := id];
        AddMachine(e.target, Down);
      }
    }

    /** Scanning all open rows, given as they were when the query ran. */
    method ResumeRows(events: seq<OutageEvent>, scan: seq<int>, works: nat -> bool)
      requires MachinesValid() && machines == map[] && openIDs == map[]
      requires events == store.rows && IsScan(events, scan)
      modifies this`machines, this`cores, this`repr, this`openIDs, store
      ensures MachinesValid() && fresh(repr - old(repr)) && AllResumed()
      ensures RowsScanned(events, scan, |scan|, works, store.rows)
      ensures IdsScanned(events, scan, |scan|, openIDs)
    {
      for k := 0 to |scan|
        invariant MachinesValid() && fresh(repr - old(repr)) && AllResumed()
        invariant RowsScanned(events, scan, k, works, store.rows)
        invariant IdsScanned(events, scan, k, openIDs)
      {
        RowsStep(events, scan, k, works, store.rows);
        IdsStep(events, scan, k, openIDs);
        ResumeRow(scan[k], events[scan[k] - 1], works(k));
      }
    }

    /**
     The startup scan of the open rows, which come in an order the query leaves open. Targets with an open row resume
     as Down. Of several open rows of a target the newest is kept; the source announces that the others are closed at
     their own start, but closes them at the start of the row it is looking at.
     */
    method Resume(order: int -> int, readable: bool, works: nat -> bool) returns (ok: bool, ghost scan: seq<int>)
      requires Valid() && machines == map[] && openIDs == map[]
      modifies this, store
      ensures Valid() && fresh(repr - old(repr)) && ok == readable
      ensures !ok ==> store.rows == old(store.rows) && openIDs == map[] && cores == map[]
      ensures ok ==> Resumed(old(store.rows), scan, works, store.rows, openIDs, cores)
    {
      scan := [];
      if !readable {
        return false, scan;
      }
      ghost var before := store.rows;
      var open := store.OpenOutages(order);
      scan := open;
      ResumeRows(store.rows, open, works);
      ResumedAgrees(before, scan, works, store.rows, openIDs, cores);
      ok := true;
    }

    /** A new machine for t, in place of any other. */
    method AddMachine(t: int, initial: State)
      requires MachinesValid()
      modifies this`machines, this`cores, this`repr
      ensures MachinesValid() && fresh(repr - old(repr))
      ensures t in machines && cores == old(cores)[t := Fresh(initial)]
    {
      var m := new Machine(failN, okN, initial);
      machines, cores, repr := machines[t := m], cores[t := Fresh(initial)], repr + {m};
    }

    /** Feeding one machine leaves the others alone. */
    method FeedMachine(s: Sample) returns (tr: Option<Transition>)
      requires MachinesValid()
      modifies this`machines, this`cores, this`repr, repr
      ensures MachinesValid() && fresh(repr - old(repr))
      ensures var (m, tr') := Next(Limits(), CoreOf(old(cores), s.target), s);
        tr == tr' && cores == old(cores)[s.target := m]
    {
      if s.target !in machines {
        AddMachine(s.target, Unknown);
      }
      var m := machines[s.target];
      tr := m.Feed(s);
      cores := cores[s.target := m.Fields()];
    }

    /** Writes a transition to the table. If the store refuses, openIDs still forgets a target that came up. */
    method Persist(tr: Transition, works: bool)
      modifies this`openIDs, store
      ensures (store.rows, openIDs) == Persisted(old(store.rows), old(openIDs), Some(tr), works)
    {
      match tr.kind
      case WentDown =>
        var id := store.OpenOutage(tr.target, tr.at, works);
        if id.Some? {
          openIDs := openIDs[tr.target := id.value];
        }
      case WentUp =>
        if tr.target in openIDs {
          store.CloseOutage(openIDs[tr.target], tr.at, works);
          openIDs := openIDs - {tr.target};
        }
    }

    method Feed(s: Sample, works: bool) returns (tr: Option<Transition>)
      requires Valid()
      modifies this, store, repr
      ensures Valid() && fresh(repr - old(repr))
      ensures var (m, tr') := Next(Limits(), CoreOf(old(cores), s.target), s);
        && tr == tr' && cores == old(cores)[s.target := m]
        && (store.rows, openIDs) == Persisted(old(store.rows), old(openIDs), tr, works)
    {
      FeedAgrees(Limits(), store.rows, openIDs, cores, s, works);
      tr := FeedMachine(s);
      if tr.Some? {
        Persist(tr.value, works);
      }
    }

    /** Drops a deleted target; its open row, if any, is closed at the given time. */
    method Forget(t: int, ts: int, works: bool)
      requires Valid()
      modifies this, store
      ensures Valid() && repr == old(repr) && cores == old(cores) - {t}
      ensures (store.rows, openIDs) == Persisted(old(store.rows), old(openIDs), Some(Transition(t, WentUp, ts)), works)
    {
      if t in openIDs {
        store.CloseOutage(openIDs[t], ts, works);
        openIDs := openIDs - {t};
      }
      machines, cores := machines - {t}, cores - {t};
    }
  }

  // ----- whole runs -----

  /** Each step carries whether its store operations work; a restart also carries the order of the scan. */
  datatype Step =
    | Restarted(order: int -> int, readable: bool, writes: nat -> bool)
    | Fed(sample: Sample, works: bool)
    | Forgotten(target: int, ts: int, works: bool)

  ghost predicate StepWorks(step: Step) {
    match step
    case Restarted(_, readable, writes) => readable && forall k :: writes(k)
    case Fed(_, works) => works
    case Forgotten(_, _, works) => works
  }

  /** Samples of a target come in increasing order, and a target is not forgotten in its past. */
  ghost predicate OnTime(clock: map<int, int>, step: Step) {
    match step
    case Restarted(_, _, _) => true
    case Fed(s, _) => Later(clock, s.target, s.ts)
    case Forgotten(t, ts, _) => t in clock ==> clock[t] <= ts
  }

  ghost function Tick(clock: map<int, int>, step: Step): map<int, int> {
    match step
    case Restarted(_, _, _) => clock
    case Fed(s, _) => clock[s.target := s.ts]
    case Forgotten(t, ts, _) => clock[t := ts]
  }

  /** The latest time at which each target was seen. */
  ghost function ClockAfter(steps: seq<Step>): map<int, int> {
    if |steps| == 0 then map[] else Tick(ClockAfter(steps[..|steps| - 1]), steps[|steps| - 1])
  }

  /** The store never fails and time moves forward. */
  ghost predicate Reliable(steps: seq<Step>) {
    |steps| > 0 ==>
      && Reliable(steps[..|steps| - 1])
      && StepWorks(steps[|steps| - 1])
      && OnTime(ClockAfter(steps[..|steps| - 1]), steps[|steps| - 1])
  }

  /** What a process knows and what the table holds. A process that could not read the table is not running. */
  datatype Book = Book(running: bool, rows: seq<OutageEvent>, openIDs: map<int, int>, cores: map<int, Core>)

  const EMPTY_BOOK := Book(true, [], map[], map[])

  /** A process that is not running does nothing until it is started again. */
  ghost predicate StepTo(c: Thresholds, b: Book, step: Step, b': Book) {
    match step
    case Restarted(_, readable, writes) =>
      if readable then b'.running && exists scan :: Resumed(b.rows, scan, writes, b'.rows, b'.openIDs, b'.cores)
      else b' == Book(false, b.rows, map[], map[])
    case Fed(s, works) =>
      if !b.running then b' == b
      else
        var (m, tr) := Next(c, CoreOf(b.cores, s.target), s);
        b'.running && (b'.rows, b'.openIDs) == Persisted(b.rows, b.openIDs, tr, works) && b'.cores == b.cores[s.target := m]
    case Forgotten(t, ts, works) =>
      if !b.running then b' == b
      else
        && b'.running && b'.cores == b.cores - {t}
        && (b'.rows, b'.openIDs) == Persisted(b.rows, b.openIDs, Some(Transition(t, WentUp, ts)), works)
  }

  /** The books before the first step and after each one. */
  ghost predicate IsRun(c: Thresholds, steps: seq<Step>, trace: seq<Book>) {
    && |trace| == |steps| + 1
    && if |steps| == 0 then trace[0] == EMPTY_BOOK
       else IsRun(c, steps[..|steps| - 1], trace[..|steps|]) && StepTo(c, trace[|steps| - 1], steps[|steps| - 1], trace[|steps|])
  }

  lemma StepAgrees(c: Thresholds, b: Book, step: Step, b': Book)
    requires Agrees(b.rows, b.openIDs, b.cores) && StepTo(c, b, step, b')
    ensures Agrees(b'.rows, b'.openIDs, b'.cores)
  {
    match step
    case Restarted(_, readable, writes) =>
      if readable {
        var scan :| Resumed(b.rows, scan, writes, b'.rows, b'.openIDs, b'.cores);
        ResumedAgrees(b.rows, scan, writes, b'.rows, b'.openIDs, b'.cores);
      }
    case Fed(s, works) =>
      FeedAgrees(c, b.rows, b.openIDs, b.cores, s, works);
    case Forgotten(_, _, _) =>
  }

  lemma StepInStep(c: Thresholds, b: Book, step: Step, b': Book, clock: map<int, int>)
    requires b.running && InStep(b.rows, b.openIDs, b.cores, clock) && StepTo(c, b, step, b')
    requires StepWorks(step) && OnTime(clock, step)
    ensures b'.running && InStep(b'.rows, b'.openIDs, b'.cores, Tick(clock, step))
  {
    match step
    case Restarted(_, _, writes) =>
      var scan :| Resumed(b.rows, scan, writes, b'.rows, b'.openIDs, b'.cores);
      RestartInStep(b.rows, b.openIDs, b.cores, clock, scan, writes, b'.rows, b'.openIDs, b'.cores);
    case Fed(s, _) =>
      FeedInStep(c, b.rows, b.openIDs, b.cores, clock, s);
    case Forgotten(t, ts, _) =>
      ForgetInStep(b.rows, b.openIDs, b.cores, clock, t, ts);
  }

  /**
   After every run, whatever fails, openIDs names only open rows of Down machines. After every reliable run the table
   is in step with the machines.
   */
  lemma {:induction false} RunKeepsInStep(c: Thresholds, steps: seq<Step>, trace: seq<Book>)
    requires IsRun(c, steps, trace)
    ensures var b := trace[|steps|];
      && Agrees(b.rows, b.openIDs, b.cores)
      && (Reliable(steps) ==> b.running && InStep(b.rows, b.openIDs, b.cores, ClockAfter(steps)))
  {
    if |steps| > 0 {
      var front, step := steps[..|steps| - 1], steps[|steps| - 1];
      RunKeepsInStep(c, front, trace[..|steps|]);
      StepAgrees(c, trace[|steps| - 1], step, trace[|steps|]);
      if Reliable(steps) {
        StepInStep(c, trace[|steps| - 1], step, trace[|steps|], ClockAfter(front));
      }
    }
  }

  /** One step of a process; a restart replaces the detector. */
  method Perform(store: Store, d: Detector, running: bool, step: Step) returns (d': Detector, running': bool)
    requires d.Valid() && d.store == store
    modifies d, store, d.repr
    ensures d'.Valid() && d'.store == store && d'.failN == d.failN && d'.okN == d.okN
    ensures (d' == d || fresh(d')) && fresh(d'.repr - old(d.repr))
    ensures StepTo(d.Limits(), old(Book(running, store.rows, d.openIDs, d.cores)), step, Book(running', store.rows, d'.openIDs, d'.cores))
  {
    ghost var rows := store.rows;
    d', running' := d, running;
    match step {
      case Restarted(order, readable, writes) =>
        d' := new Detector(store, d.failN, d.okN);
        ghost var scan;
        running', scan := d'.Resume(order, readable, writes);
        assert readable ==> Resumed(rows, scan, writes, store.rows, d'.openIDs, d'.cores);
      case Fed(s, works) =>
        if running {
          var tr := d.Feed(s, works);
        }
      case Forgotten(t, ts, works) =>
        if running {
          d.Forget(t, ts, works);
        }
    }
  }

  /** Any run of the detector on a new table. */
  method RunDetector(failN: int, okN: int, steps: seq<Step>) returns (store: Store, d: Detector, running: bool,
                     ghost trace: seq<Book>)
    ensures fresh(store) && fresh(d) && fresh(d.repr) && d.Valid() && d.store == store && d.Limits() == Thresholds(failN, okN)
    ensures IsRun(Thresholds(failN, okN), steps, trace)
    ensures trace[|steps|] == Book(running, store.rows, d.openIDs, d.cores)
  {
    if |steps| == 0 {
      store := new Store();
      d := new Detector(store, failN, okN);
      running, trace := true, [EMPTY_BOOK];
    } else {
      store, d, running, trace := RunDetector(failN, okN, steps[..|steps| - 1]);
      ghost var before := trace;
      d, running := Perform(store, d, running, steps[|steps| - 1]);
      trace := before + [Book(running, store.rows, d.openIDs, d.cores)];
      assert trace[..|steps|] == before;
    }
  }

  // ----- two open rows of one target -----

  const TWO_OPEN_ROWS := [OutageEvent(1, 0, None), OutageEvent(1, 20, None)]

  lemma ExtendRun(c: Thresholds, steps: seq<Step>, trace: seq<Book>, step: Step, b: Book)
    requires IsRun(c, steps, trace) && StepTo(c, trace[|steps|], step, b)
    ensures IsRun(c, steps + [step], trace + [b])
  {
    assert (steps + [step])[..|steps|] == steps && (trace + [b])[..|trace|] == trace;
  }

  /** Target 1 goes down, the write that should end its outage fails when it comes up, and it goes down again. */
  function FailedWriteSteps(): seq<Step> {
    [Fed(Sample(1, 0, 0, false, false), true), Fed(Sample(1, 10, 1, true, false), false), Fed(Sample(1, 20, 0, false, false), true)]
  }

  function FailedWriteTrace(): seq<Book> {
    [EMPTY_BOOK,
     Book(true, [OutageEvent(1, 0, None)], map[1 := 1], map[1 := Core(Down, 1, 0, 0, 0)]),
     Book(true, [OutageEvent(1, 0, None)], map[], map[1 := Core(Up, 0, 1, 0, 10)]),
     Book(true, TWO_OPEN_ROWS, map[1 := 2], map[1 := Core(Down, 1, 0, 20, 0)])]
  }

  lemma FailedWriteLeavesTwoOpenRows()
    ensures IsRun(Thresholds(1, 1), FailedWriteSteps(), FailedWriteTrace())
  {
    var c := Thresholds(1, 1);
    var steps, trace := FailedWriteSteps(), FailedWriteTrace();
    assert StepTo(c, trace[0], steps[0], trace[1]) by {
      assert [] + [OutageEvent(1, 0, None)] == [OutageEvent(1, 0, None)];
    }
    assert StepTo(c, trace[1], steps[1], trace[2]) by {
      assert trace[1].openIDs - {1} == map[];
    }
    assert StepTo(c, trace[2], steps[2], trace[3]) by {
      assert [OutageEvent(1, 0, None)] + [OutageEvent(1, 20, None)] == TWO_OPEN_ROWS;
    }
    ExtendRun(c, [], [trace[0]], steps[0], trace[1]);
    ExtendRun(c, [] + [steps[0]], [trace[0]] + [trace[1]], steps[1], trace[2]);
    ExtendRun(c, [] + [steps[0]] + [steps[1]], [trace[0]] + [trace[1]] + [trace[2]], steps[2], trace[3]);
    assert steps == [] + [steps[0]] + [steps[1]] + [steps[2]];
    assert trace == [trace[0]] + [trace[1]] + [trace[2]] + [trace[3]];
  }

  lemma NewestOfTwo(scan: seq<int>, t: int)
    requires scan == [1, 2] || scan == [2, 1]
    ensures Newest(TWO_OPEN_ROWS, scan, 2, t) == if t == 1 then Some(2) else None
  {
    assert Newest(TWO_OPEN_ROWS, scan, 0, t) == None;
    assert Newest(TWO_OPEN_ROWS, scan, 1, t) == if t == 1 then Some(scan[0]) else None;
  }

  lemma NewerOfTwo(scan: seq<int>, p: nat)
    requires (scan == [1, 2] || scan == [2, 1]) && p < 2
    ensures FirstNewer(TWO_OPEN_ROWS, scan, p, 2) == if scan[p] == 2 then None else Some(1 - p)
  {
    assert FirstNewer(TWO_OPEN_ROWS, scan, p, 0) == None;
    assert FirstNewer(TWO_OPEN_ROWS, scan, p, 1) == if Newer(TWO_OPEN_ROWS, scan, p, 0) then Some(0) else None;
  }

  /** Where a restart ends the older of the two rows depends on which the query returns first: at 20 or at its own start. */
  lemma ScanOrderDecides(scan: seq<int>, works: nat -> bool)
    requires scan == [1, 2] || scan == [2, 1]
    requires forall k :: works(k)
    ensures var ended := OutageEvent(1, 0, Some(if scan == [1, 2] then 20 else 0));
      Resumed(TWO_OPEN_ROWS, scan, works, [ended, TWO_OPEN_ROWS[1]], map[1 := 2], map[1 := Fresh(Down)])
  {
    forall t ensures Newest(TWO_OPEN_ROWS, scan, 2, t) == if t == 1 then Some(2) else None {
      NewestOfTwo(scan, t);
    }
    NewerOfTwo(scan, 0);
    NewerOfTwo(scan, 1);
  }

  /**
   The source announces that a stale row ends at its own start. A restart after that run, which fails nowhere and whose
   query returns the older row first, ends the row that began at 0 where the newer one begins, at 20.
   */
  lemma StaleRowEndsAtTheNewerStart(order: int -> int, writes: nat -> bool)
    requires order(1) < order(2) && forall k :: writes(k)
    ensures StepWorks(Restarted(order, true, writes))
    ensures IsRun(Thresholds(1, 1), FailedWriteSteps() + [Restarted(order, true, writes)],
      FailedWriteTrace() + [Book(true, [OutageEvent(1, 0, Some(20)), OutageEvent(1, 20, None)], map[1 := 2], map[1 := Fresh(Down)])])
  {
    var b := Book(true, [OutageEvent(1, 0, Some(20)), OutageEvent(1, 20, None)], map[1 := 2], map[1 := Fresh(Down)]);
    FailedWriteLeavesTwoOpenRows();
    ScanOrderDecides([1, 2], writes);
    assert Resumed(TWO_OPEN_ROWS, [1, 2], writes, b.rows, b.openIDs, b.cores);
    ExtendRun(Thresholds(1, 1), FailedWriteSteps(), FailedWriteTrace(), Restarted(order, true, writes), b);
  }

  // ----- what being in step means for the table -----

  /** Stored outages of a target are disjoint, apart, and of non-negative length; at most one is open, and only while it is Down. */
  lemma InStepTable(rows: seq<OutageEvent>, openIDs: map<int, int>, cores: map<int, Core>, clock: map<int, int>, t: int)
    requires InStep(rows, openIDs, cores, clock)
    ensures Disjoint(rows, t) && Separated(rows, t)
    ensures forall i :: 0 <= i < |rows| && rows[i].endedAt.Some? ==> rows[i].startedAt <= rows[i].endedAt.value
    ensures (exists i :: 0 <= i < |rows| && rows[i].target == t && rows[i].endedAt.None?) <==> t in cores && cores[t].state == Down
    ensures forall i, j :: 0 <= i < |rows| && 0 <= j < |rows| && rows[i].target == rows[j].target == t ==>
      rows[i].endedAt.None? && rows[j].endedAt.None? ==> i == j
  {
    if t in cores && cores[t].state == Down {
      assert rows[openIDs[t] - 1].target == t && rows[openIDs[t] - 1].endedAt.None?;
    }
  }
}
