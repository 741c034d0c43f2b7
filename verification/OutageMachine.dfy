/**
 The hysteresis state machine of one target. The class changes its fields in place, as a function on field values
 prescribes; what that function amounts to over a whole history of samples is stated and proved below it.
 */
module OutageMachine {
  import opened Common
  import opened Sorting

  datatype State = Unknown | Up | Down

  datatype Kind = WentDown | WentUp

  datatype Transition = Transition(target: int, kind: Kind, at: int)

  datatype Thresholds = Thresholds(failN: int, okN: int)

  datatype Core = Core(state: State, failCount: nat, okCount: nat, firstFailTS: int, firstOkTS: int)

  function Fresh(initial: State): Core {
    Core(initial, 0, 0, 0, 0)
  }

  /** The run of results that may cause the next transition: failures while not Down, successes while Down. */
  function Pending(m: Core): Option<int> {
    if m.state == Down then (if m.okCount > 0 then Some(m.firstOkTS) else None)
    else (if m.failCount > 0 then Some(m.firstFailTS) else None)
  }

  /** One sample. Samples taken during a speed test are ignored. */
  function Next(c: Thresholds, m: Core, s: Sample): (Core, Option<Transition>) {
    if s.duringSpeedtest then (m, None)
    else if s.success then
      var first := if m.okCount == 0 then s.ts else m.firstOkTS;
      var up := m.state == Unknown || (m.state == Down && m.okCount + 1 >= c.okN);
      (Core(if up then Up else m.state, 0, m.okCount + 1, 0, first),
       if up && m.state == Down then Some(Transition(s.target, WentUp, first)) else None)
    else
      var first := if m.failCount == 0 then s.ts else m.firstFailTS;
      var down := m.state != Down && m.failCount + 1 >= c.failN;
      (Core(if down then Down else m.state, m.failCount + 1, 0, first, 0),
       if down then Some(Transition(s.target, WentDown, first)) else None)
  }

  /**
   A transition happens exactly when the machine enters or leaves Down. It is stamped with the start of the pending
   run, or with the new sample if that run is only starting, and leaves no run pending.
   */
  lemma NextFlips(c: Thresholds, m: Core, s: Sample)
    ensures var (m', tr) := Next(c, m, s);
      && (tr.Some? <==> (m.state == Down) != (m'.state == Down))
      && (tr.Some? ==>
          && tr.value.target == s.target && (tr.value.kind == WentDown <==> m'.state == Down)
          && tr.value.at == (if Pending(m).Some? then Pending(m).value else s.ts)
          && Pending(m') == None)
      && (tr.None? && !s.duringSpeedtest ==>
          Pending(m') == if s.success != (m.state == Down) then None else if Pending(m).Some? then Pending(m) else Some(s.ts))
      && (s.duringSpeedtest ==> m' == m)
  {
  }

  class Machine {
    const failN: int
    const okN: int
    var state: State
    var failCount: nat
    var okCount: nat
    var firstFailTS: int
    var firstOkTS: int

    ghost function Limits(): Thresholds {
      Thresholds(failN, okN)
    }

    ghost function Fields(): Core
      reads this
    {
      Core(state, failCount, okCount, firstFailTS, firstOkTS)
    }

    constructor (failThreshold: int, okThreshold: int, initial: State)
      ensures Fields() == Fresh(initial) && failN == failThreshold && okN == okThreshold
    {
      failN, okN := failThreshold, okThreshold;
      state, failCount, okCount, firstFailTS, firstOkTS := initial, 0, 0, 0, 0;
    }

    method Feed(s: Sample) returns (tr: Option<Transition>)
      modifies this
      ensures (Fields(), tr) == Next(Limits(), old(Fields()), s)
    {
      if s.duringSpeedtest {
        return None;
      }
      if s.success {
        failCount := 0;
        firstFailTS := 0;
        if okCount == 0 {
          firstOkTS := s.ts;
        }
        okCount := okCount + 1;
        match state {
          case Down =>
            if okCount >= okN {
              state := Up;
              return Some(Transition(s.target, WentUp, firstOkTS));
            }
          case Unknown =>
            state := Up;
          case Up =>
        }
        return None;
      }
      okCount := 0;
      firstOkTS := 0;
      if failCount == 0 {
        firstFailTS := s.ts;
      }
      failCount := failCount + 1;
      if state == Up || state == Unknown {
        if failCount >= failN {
          state := Down;
          return Some(Transition(s.target, WentDown, firstFailTS));
        }
      }
      return None;
    }
  }

  // ----- a whole history -----

  /** The fields of a machine after a history, and the transitions it reported on the way. */
  function After(c: Thresholds, initial: State, h: seq<Sample>): Core {
    if |h| == 0 then Fresh(initial) else Next(c, After(c, initial, h[..|h| - 1]), h[|h| - 1]).0
  }

  function Transitions(c: Thresholds, initial: State, h: seq<Sample>): seq<Transition> {
    if |h| == 0 then []
    else
      var tr := Next(c, After(c, initial, h[..|h| - 1]), h[|h| - 1]).1;
      Transitions(c, initial, h[..|h| - 1]) + if tr.Some? then [tr.value] else []
  }

  /** Samples taken during a speed test might as well not have been fed. */
  lemma {:induction false} SpeedtestSamplesVanish(c: Thresholds, initial: State, h: seq<Sample>)
    ensures After(c, initial, h) == After(c, initial, Filter(h, NotDuringSpeedtest()))
    ensures Transitions(c, initial, h) == Transitions(c, initial, Filter(h, NotDuringSpeedtest()))
  {
    if |h| > 0 {
      var front, last := h[..|h| - 1], h[|h| - 1];
      SpeedtestSamplesVanish(c, initial, front);
      if !last.duringSpeedtest {
        var f := Filter(front, NotDuringSpeedtest());
        assert (f + [last])[..|f|] == f;
      }
    }
  }

  /** The length of the run of equal results that ends the history; zero if the last result is the other one. */
  function Run(h: seq<Sample>, success: bool): (n: nat)
    ensures n <= |h|
  {
    if |h| == 0 || h[|h| - 1].success != success then 0 else 1 + Run(h[..|h| - 1], success)
  }

  /** The time of the first sample of that run; zero if there is no run. */
  function RunStart(h: seq<Sample>, success: bool): int {
    if Run(h, success) == 0 then 0 else h[|h| - Run(h, success)].ts
  }

  lemma {:induction false} RunIsMaximal(h: seq<Sample>, success: bool)
    ensures var n := Run(h, success);
      && (forall i :: |h| - n <= i < |h| ==> h[i].success == success)
      && (n < |h| ==> h[|h| - n - 1].success != success)
  {
    if |h| > 0 && h[|h| - 1].success == success {
      RunIsMaximal(h[..|h| - 1], success);
    }
  }

  /** Every sample of the history counts. */
  ghost predicate AllCount(h: seq<Sample>) {
    |h| > 0 ==> !h[|h| - 1].duringSpeedtest && AllCount(h[..|h| - 1])
  }

  /** The counters are the lengths of the runs that end the history, and the time stamps are where those runs began. */
  lemma {:induction false} CountersAreRuns(c: Thresholds, initial: State, h: seq<Sample>)
    requires AllCount(h)
    ensures var m := After(c, initial, h);
      && m.failCount == Run(h, false) && m.okCount == Run(h, true)
      && m.firstFailTS == RunStart(h, false) && m.firstOkTS == RunStart(h, true)
  {
    if |h| > 0 {
      CountersAreRuns(c, initial, h[..|h| - 1]);
    }
  }

  // ----- what the state means; thresholds below one behave like one -----

  ghost predicate Failed(c: Thresholds, h: seq<Sample>, cut: nat)
    requires cut <= |h|
  {
    Run(h[..cut], false) >= Max(c.failN, 1)
  }

  ghost predicate Recovered(c: Thresholds, h: seq<Sample>, cut: nat)
    requires cut <= |h|
  {
    Run(h[..cut], true) >= Max(c.okN, 1)
  }

  /** After cut samples the failures reached their threshold, and no later prefix ends in enough successes. */
  ghost predicate FailedAndNotRecovered(c: Thresholds, h: seq<Sample>, cut: nat)
    requires cut <= |h|
  {
    Failed(c, h, cut) && forall i :: cut < i <= |h| ==> !Recovered(c, h, i)
  }

  lemma SamePrefix(c: Thresholds, h: seq<Sample>, cut: nat)
    requires cut < |h|
    ensures var front := h[..|h| - 1]; Failed(c, front, cut) == Failed(c, h, cut) && Recovered(c, front, cut) == Recovered(c, h, cut)
  {
    assert h[..|h| - 1][..cut] == h[..cut];
  }

  lemma LastCut(c: Thresholds, h: seq<Sample>, cut: nat)
    requires cut < |h|
    ensures FailedAndNotRecovered(c, h, cut) <==>
      FailedAndNotRecovered(c, h[..|h| - 1], cut) && !Recovered(c, h, |h|)
  {
    SamePrefix(c, h, cut);
    var front := h[..|h| - 1];
    forall i | 0 <= i < |h| ensures Recovered(c, h, i) == Recovered(c, front, i) {
      SamePrefix(c, h, i);
    }
  }

  /** A fresh machine is Down exactly if some run of failN failures is not yet followed by a run of okN successes. */
  lemma {:induction false} DownMeans(c: Thresholds, h: seq<Sample>)
    requires AllCount(h)
    ensures After(c, Unknown, h).state == Down <==> exists cut :: 0 <= cut <= |h| && FailedAndNotRecovered(c, h, cut)
  {
    if |h| > 0 {
      var front := h[..|h| - 1];
      DownMeans(c, front);
      CountersAreRuns(c, Unknown, front);
      assert h[..|h|] == h;
      if Run(h, false) >= Max(c.failN, 1) {
        assert FailedAndNotRecovered(c, h, |h|);
      } else {
        forall cut | 0 <= cut <= |h|
          ensures FailedAndNotRecovered(c, h, cut) <==>
            cut < |h| && FailedAndNotRecovered(c, front, cut) && Run(h, true) < Max(c.okN, 1)
        {
          if cut < |h| {
            LastCut(c, h, cut);
          }
        }
      }
    }
  }

  /** A fresh machine is still Unknown exactly if it has seen nothing but fewer than failN failures. */
  lemma {:induction false} UnknownMeans(c: Thresholds, h: seq<Sample>)
    requires AllCount(h)
    ensures After(c, Unknown, h).state == Unknown <==> Run(h, false) == |h| < Max(c.failN, 1)
  {
    if |h| > 0 {
      UnknownMeans(c, h[..|h| - 1]);
      CountersAreRuns(c, Unknown, h[..|h| - 1]);
    }
  }

  // ----- the transitions of a whole history -----

  /** The kinds alternate, beginning with first. */
  ghost predicate Alternates(trs: seq<Transition>, first: Kind) {
    forall i :: 0 <= i < |trs| ==> (trs[i].kind == first <==> i % 2 == 0)
  }

  lemma {:induction false} TransitionsAlternate(c: Thresholds, h: seq<Sample>)
    ensures var trs := Transitions(c, Unknown, h);
      && Alternates(trs, WentDown)
      && (After(c, Unknown, h).state == Down <==> |trs| % 2 == 1)
  {
    if |h| > 0 {
      TransitionsAlternate(c, h[..|h| - 1]);
    }
  }

  /** Samples come in strictly increasing order of time. */
  ghost predicate Increasing(h: seq<Sample>) {
    |h| > 1 ==> h[|h| - 2].ts < h[|h| - 1].ts && Increasing(h[..|h| - 1])
  }

  ghost predicate AllBefore(trs: seq<Transition>, ts: int) {
    forall i :: 0 <= i < |trs| ==> trs[i].at < ts
  }

  ghost predicate Stamped(trs: seq<Transition>) {
    forall i, j :: 0 <= i < j < |trs| ==> trs[i].at < trs[j].at
  }

  /** Stamps increase strictly, because the run that causes a transition begins after the previous transition. */
  lemma {:induction false} TransitionsIncrease(c: Thresholds, h: seq<Sample>)
    requires Increasing(h)
    ensures var trs, pending := Transitions(c, Unknown, h), Pending(After(c, Unknown, h));
      && Stamped(trs)
      && (|h| == 0 ==> trs == [] && pending.None?)
      && (|h| > 0 ==> AllBefore(trs, h[|h| - 1].ts + 1) && (pending.Some? ==> pending.value <= h[|h| - 1].ts))
      && (pending.Some? ==> AllBefore(trs, pending.value))
  {
    if |h| > 0 {
      TransitionsIncrease(c, h[..|h| - 1]);
      NextFlips(c, After(c, Unknown, h[..|h| - 1]), h[|h| - 1]);
    }
  }
}
