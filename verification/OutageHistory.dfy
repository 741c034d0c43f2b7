/**
 The outage table as a record: for every target, its rows are exactly the Down and Up transitions that a machine of its
 own reports for the samples of that target, paired up. No other target's samples leave a trace in them.
 */
module OutageHistory {
  import opened Common
  import opened Sorting
  import opened OutageTable
  import opened OutageMachine
  import opened OutageDetector
  import opened LossBursts

  function OfTarget(t: int): OutageEvent -> bool {
    (e: OutageEvent) => e.target == t
  }

  function ForTarget(t: int): Sample -> bool {
    (s: Sample) => s.target == t
  }

  /** The rows of a target, in the order in which they were inserted. */
  function RowsOf(rows: seq<OutageEvent>, t: int): seq<OutageEvent> {
    Filter(rows, OfTarget(t))
  }

  function History(samples: seq<Sample>, t: int): seq<Sample> {
    Filter(samples, ForTarget(t))
  }

  /** An outage for every Down transition, ended by the next Up transition. */
  function Outages(trs: seq<Transition>): seq<OutageEvent> {
    if |trs| == 0 then []
    else
      var before, tr := Outages(trs[..|trs| - 1]), trs[|trs| - 1];
      if tr.kind == WentDown then before + [OutageEvent(tr.target, tr.at, None)]
      else if |before| == 0 then []
      else before[|before| - 1 := before[|before| - 1].(endedAt := Some(tr.at))]
  }

  /** The book after feeding samples of any number of targets to a detector whose store works. */
  ghost function AfterSamples(c: Thresholds, samples: seq<Sample>): Book {
    if |samples| == 0 then EMPTY_BOOK
    else
      var b, s := AfterSamples(c, samples[..|samples| - 1]), samples[|samples| - 1];
      var (m, tr) := Next(c, CoreOf(b.cores, s.target), s);
      var (rows, openIDs) := Persisted(b.rows, b.openIDs, tr, true);
      Book(true, rows, openIDs, b.cores[s.target := m])
  }

  function Feeding(samples: seq<Sample>): (steps: seq<Step>)
    ensures |steps| == |samples|
  {
    if |samples| == 0 then [] else Feeding(samples[..|samples| - 1]) + [Fed(samples[|samples| - 1], true)]
  }

  /** A run that only feeds samples, with a working store, ends in that book. */
  lemma {:induction false} RunOfSamples(c: Thresholds, samples: seq<Sample>, trace: seq<Book>)
    requires IsRun(c, Feeding(samples), trace)
    ensures trace[|samples|] == AfterSamples(c, samples)
  {
    if |samples| > 0 {
      var front, steps := samples[..|samples| - 1], Feeding(samples);
      assert steps[..|steps| - 1] == Feeding(front);
      RunOfSamples(c, front, trace[..|steps|]);
    }
  }

  // ----- the rows of one target -----

  /** Row id is the last row of t. */
  ghost predicate IsLastOf(rows: seq<OutageEvent>, t: int, id: int) {
    1 <= id <= |rows| && rows[id - 1].target == t && forall i :: id <= i < |rows| ==> rows[i].target != t
  }

  lemma {:induction false} LastOf(rows: seq<OutageEvent>, t: int, id: int, at: int)
    requires IsLastOf(rows, t, id)
    ensures var f := RowsOf(rows, t);
      && |f| > 0 && f[|f| - 1] == rows[id - 1]
      && RowsOf(Ended(rows, id, at), t) == f[|f| - 1 := f[|f| - 1].(endedAt := Some(at))]
  {
    var front, x := rows[..|rows| - 1], rows[|rows| - 1];
    var ended := Ended(rows, id, at);
    if id == |rows| {
      assert ended[..|ended| - 1] == front;
    } else {
      LastOf(front, t, id, at);
      assert ended[..|ended| - 1] == Ended(front, id, at);
    }
  }

  /** Closing a row of another target leaves the rows of t alone. */
  lemma {:induction false} OtherRowsStay(rows: seq<OutageEvent>, t: int, id: int, at: int)
    requires 1 <= id <= |rows| ==> rows[id - 1].target != t
    ensures RowsOf(Ended(rows, id, at), t) == RowsOf(rows, t)
  {
    if |rows| > 0 {
      var front, ended := rows[..|rows| - 1], Ended(rows, id, at);
      if 1 <= id < |rows| {
        OtherRowsStay(front, t, id, at);
        assert ended[..|ended| - 1] == Ended(front, id, at);
      } else if id == |rows| {
        assert ended[..|ended| - 1] == front;
      }
    }
  }

  /** The table agrees with the machine of t: its last row is open, and named by openIDs, exactly while t is Down. */
  ghost predicate Recorded(c: Thresholds, b: Book, h: seq<Sample>, t: int) {
    && CoreOf(b.cores, t) == After(c, Unknown, h)
    && RowsOf(b.rows, t) == Outages(Transitions(c, Unknown, h))
    && (t in b.openIDs <==> After(c, Unknown, h).state == Down)
    && (t in b.openIDs ==> IsLastOf(b.rows, t, b.openIDs[t]))
  }

  lemma OutagesStep(trs: seq<Transition>, tr: Transition, longer: seq<Transition>)
    requires longer == trs + [tr]
    ensures var before := Outages(trs);
      Outages(longer) ==
        if tr.kind == WentDown then before + [OutageEvent(tr.target, tr.at, None)]
        else if |before| == 0 then []
        else before[|before| - 1 := before[|before| - 1].(endedAt := Some(tr.at))]
  {
    assert longer[..|longer| - 1] == trs;
  }

  /** A sample of t. */
  lemma OwnSample(c: Thresholds, b: Book, next: Book, h: seq<Sample>, s: Sample, longer: seq<Sample>)
    requires Recorded(c, b, h, s.target) && longer == h + [s]
    requires var (m, tr) := Next(c, CoreOf(b.cores, s.target), s);
      (next.rows, next.openIDs) == Persisted(b.rows, b.openIDs, tr, true) && next.cores == b.cores[s.target := m]
    ensures Recorded(c, next, longer, s.target)
  {
    assert longer[..|longer| - 1] == h;
    var t := s.target;
    var m := After(c, Unknown, h);
    var tr := Next(c, m, s).1;
    NextFlips(c, m, s);
    if tr.Some? {
      OutagesStep(Transitions(c, Unknown, h), tr.value, Transitions(c, Unknown, longer));
      if tr.value.kind == WentDown {
        FilterStep(b.rows, OutageEvent(t, tr.value.at, None), OfTarget(t));
      } else {
        LastOf(b.rows, t, b.openIDs[t], tr.value.at);
      }
    } else {
      assert Transitions(c, Unknown, longer) == Transitions(c, Unknown, h);
    }
  }

  /** A sample of another target. */
  lemma OtherSample(c: Thresholds, b: Book, next: Book, h: seq<Sample>, s: Sample, t: int)
    requires Recorded(c, b, h, t) && s.target != t
    requires s.target in b.openIDs ==> IsLastOf(b.rows, s.target, b.openIDs[s.target])
    requires var (m, tr) := Next(c, CoreOf(b.cores, s.target), s);
      (next.rows, next.openIDs) == Persisted(b.rows, b.openIDs, tr, true) && next.cores == b.cores[s.target := m]
    ensures Recorded(c, next, h, t)
  {
    var tr := Next(c, CoreOf(b.cores, s.target), s).1;
    NextFlips(c, CoreOf(b.cores, s.target), s);
    if tr.Some? {
      if tr.value.kind == WentDown {
        FilterStep(b.rows, OutageEvent(s.target, tr.value.at, None), OfTarget(t));
      } else if s.target in b.openIDs {
        OtherRowsStay(b.rows, t, b.openIDs[s.target], tr.value.at);
      }
    }
  }

  /** Whatever samples are fed, in whatever interleaving of targets, the rows of a target are its own machine's outages. */
  lemma {:induction false} TableIsTheRecord(c: Thresholds, samples: seq<Sample>, t: int)
    ensures Recorded(c, AfterSamples(c, samples), History(samples, t), t)
  {
    if |samples| > 0 {
      var front, s := samples[..|samples| - 1], samples[|samples| - 1];
      TableIsTheRecord(c, front, t);
      if s.target == t {
        OwnSample(c, AfterSamples(c, front), AfterSamples(c, samples), History(front, t), s, History(samples, t));
      } else {
        TableIsTheRecord(c, front, s.target);
        OtherSample(c, AfterSamples(c, front), AfterSamples(c, samples), History(front, t), s, t);
      }
    }
  }

  // ----- stored outages and loss bursts -----

  /** Every stored outage begins with a Down transition. */
  ghost predicate BeginWithDowns(events: seq<OutageEvent>, trs: seq<Transition>) {
    forall i :: 0 <= i < |events| ==> exists k :: 0 <= k < |trs| && trs[k].kind == WentDown && trs[k].at == events[i].startedAt
  }

  lemma {:induction false} OutagesBeginWithDowns(trs: seq<Transition>)
    ensures BeginWithDowns(Outages(trs), trs)
  {
    if |trs| > 0 {
      var front := trs[..|trs| - 1];
      OutagesBeginWithDowns(front);
      var events := Outages(trs);
      forall i | 0 <= i < |events|
        ensures exists k :: 0 <= k < |trs| && trs[k].kind == WentDown && trs[k].at == events[i].startedAt
      {
        if i < |Outages(front)| {
          var k :| 0 <= k < |front| && front[k].kind == WentDown && front[k].at == Outages(front)[i].startedAt;
          assert trs[k] == front[k];
        } else {
          assert trs[|trs| - 1].at == events[i].startedAt;
        }
      }
    }
  }

  /** Every outage in the table begins where a loss burst of the same samples begins that is long enough to take a target down. */
  lemma StoredOutagesAreLongBursts(c: Thresholds, samples: seq<Sample>, t: int, i: nat)
    requires i < |RowsOf(AfterSamples(c, samples).rows, t)|
    ensures LongBurst(c, Bursts(Filter(History(samples, t), NotDuringSpeedtest())), RowsOf(AfterSamples(c, samples).rows, t)[i].startedAt)
  {
    var h := History(samples, t);
    TableIsTheRecord(c, samples, t);
    OutagesBeginWithDowns(Transitions(c, Unknown, h));
    StoredOutagesBeginWithBursts(c, h);
    var trs, e := Transitions(c, Unknown, h), RowsOf(AfterSamples(c, samples).rows, t)[i];
    var k :| 0 <= k < |trs| && trs[k].kind == WentDown && trs[k].at == e.startedAt;
  }
}
