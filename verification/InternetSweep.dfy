/**
 Internet-level downtime: the time during which every enabled tier-3 target was inside an outage.
 The source sorts the outage boundaries and walks over them once, counting how many outages are open. The
 specification counts milliseconds of the window one by one.
 */
module InternetSweep {
  import opened Common
  import opened Sorting
  import opened OutageTable

  datatype Target = Target(id: int, tier: int, enabled: bool)

  datatype Boundary = Boundary(ts: int, delta: int)

  function IsTier3(): Target -> bool {
    (t: Target) => t.tier == 3 && t.enabled
  }

  function Ids(targets: seq<Target>): (ids: seq<int>)
    ensures |ids| == |targets|
    ensures forall i :: 0 <= i < |ids| ==> ids[i] == targets[i].id
  {
    if |targets| == 0 then [] else Ids(targets[..|targets| - 1]) + [targets[|targets| - 1].id]
  }

  function Tier3(targets: seq<Target>): seq<int> {
    Ids(Filter(targets, IsTier3()))
  }

  /** Ids are primary keys of an AUTOINCREMENT table. */
  ghost predicate AreKeys(targets: seq<Target>) {
    && (forall i :: 0 <= i < |targets| ==> targets[i].id > 0)
    && (forall i, j :: 0 <= i < j < |targets| ==> targets[i].id != targets[j].id)
  }

  // ----- what the statistics mean, read off the table -----

  ghost function AllDown(rows: seq<OutageEvent>, ids: seq<int>): int -> bool {
    (t: int) => forall i :: 0 <= i < |ids| ==> DownAt(rows, ids[i], t)
  }

  /** The millisecond t opens a maximal all-down interval of the window that starts at from. */
  ghost function OutageBegins(rows: seq<OutageEvent>, ids: seq<int>, from: int): int -> bool {
    (t: int) => AllDown(rows, ids)(t) && (t == from || !AllDown(rows, ids)(t - 1))
  }

  /** How many events of the given targets run at t. */
  function Depth(rows: seq<OutageEvent>, ids: seq<int>, t: int): nat {
    if |ids| == 0 then 0
    else Depth(rows, ids[..|ids| - 1], t) + Count(rows, RunningAt(ids[|ids| - 1], t))
  }

  /** How many of them already ran at t - 1, inside the window. */
  function Carried(rows: seq<OutageEvent>, ids: seq<int>, from: int, t: int): nat {
    if |ids| == 0 then 0
    else Carried(rows, ids[..|ids| - 1], from, t) + Count(rows, CarriedInto(ids[|ids| - 1], from, t))
  }

  ghost function Deep(rows: seq<OutageEvent>, ids: seq<int>): int -> bool {
    (t: int) => Depth(rows, ids, t) >= |ids|
  }

  /** At t enough events run, but not enough of them were carried over from t - 1. */
  ghost function Deepens(rows: seq<OutageEvent>, ids: seq<int>, from: int): int -> bool {
    (t: int) => Depth(rows, ids, t) >= |ids| > Carried(rows, ids, from, t)
  }

  // ----- boundaries -----

  /** Boundaries by time; at one instant ends come before starts. */
  function SweepOrder(): Boundary -> int {
    (b: Boundary) => 2 * b.ts + if b.delta > 0 then 1 else 0
  }

  function Delta(): Boundary -> int {
    (b: Boundary) => b.delta
  }

  /** Counts boundaries up to and including t. */
  function UpTo(t: int): Boundary -> int {
    (b: Boundary) => if b.ts <= t then b.delta else 0
  }

  /** Counts boundaries before t and the ends at t. */
  function Before(t: int): Boundary -> int {
    (b: Boundary) => if b.ts < t || (b.ts == t && b.delta < 0) then b.delta else 0
  }

  ghost predicate WellFormed(bounds: seq<Boundary>, from: int, to: int) {
    forall i :: 0 <= i < |bounds| ==> from <= bounds[i].ts <= to && (bounds[i].delta == 1 || bounds[i].delta == -1)
  }

  /** Once sorted, the boundaries handled so far are exactly those up to (before) t. */
  lemma {:induction false} PrefixSum(bounds: seq<Boundary>, k: nat, w: Boundary -> int)
    requires k <= |bounds|
    requires forall i :: 0 <= i < k ==> w(bounds[i]) == bounds[i].delta
    requires forall i :: k <= i < |bounds| ==> w(bounds[i]) == 0
    ensures Sum(bounds, w) == Sum(bounds[..k], Delta())
  {
    if |bounds| > 0 {
      var front := bounds[..|bounds| - 1];
      if k == |bounds| {
        PrefixSum(front, k - 1, w);
        assert bounds[..k] == bounds;
        assert front[..k - 1] == front;
      } else {
        PrefixSum(front, k, w);
        assert front[..k] == bounds[..k];
      }
    }
  }

  // ----- what one event contributes -----

  function Clip(e: OutageEvent, from: int, to: int): (int, int) {
    (Max(e.startedAt, from), if e.endedAt.Some? then Min(e.endedAt.value, to) else to)
  }

  function One(b: bool): int { if b then 1 else 0 }

  lemma AppendInterval(bounds: seq<Boundary>, start: int, end: int, w: Boundary -> int)
    ensures Sum(bounds + [Boundary(start, 1), Boundary(end, -1)], w) ==
            Sum(bounds, w) + w(Boundary(start, 1)) + w(Boundary(end, -1))
  {
    var b0, b1 := Boundary(start, 1), Boundary(end, -1);
    SumStep(bounds, b0, w);
    SumStep(bounds + [b0], b1, w);
    assert bounds + [b0, b1] == bounds + [b0] + [b1];
  }

  ghost predicate CountsEvents(bounds: seq<Boundary>, old_: seq<Boundary>, events: seq<OutageEvent>, id: int,
                               from: int, to: int) {
    forall t :: from <= t < to ==>
      && Sum(bounds, UpTo(t)) == Sum(old_, UpTo(t)) + Count(events, RunningAt(id, t))
      && Sum(bounds, Before(t)) == Sum(old_, Before(t)) + Count(events, CarriedInto(id, from, t))
  }

  /** Appending the two boundaries of a clipped event counts that event, and dropping an empty clip loses nothing. */
  lemma CountsOneMore(bounds: seq<Boundary>, old_: seq<Boundary>, events: seq<OutageEvent>, id: int, from: int, to: int, j: nat)
    requires j < |events| && events[j].target == id
    requires CountsEvents(bounds, old_, events[..j], id, from, to)
    ensures var (start, end) := Clip(events[j], from, to);
      CountsEvents(if end <= start then bounds else bounds + [Boundary(start, 1), Boundary(end, -1)], old_, events[..j + 1], id, from, to)
  {
    var e := events[j];
    var (start, end) := Clip(e, from, to);
    assert events[..j + 1][..j] == events[..j];
    forall t | from <= t < to
      ensures Count(events[..j + 1], RunningAt(id, t)) == Count(events[..j], RunningAt(id, t)) + One(start <= t < end)
      ensures Count(events[..j + 1], CarriedInto(id, from, t)) == Count(events[..j], CarriedInto(id, from, t)) + One(start < t < end)
    {
    }
    if start < end {
      forall t | from <= t < to
        ensures Sum(bounds + [Boundary(start, 1), Boundary(end, -1)], UpTo(t)) == Sum(bounds, UpTo(t)) + One(start <= t < end)
        ensures Sum(bounds + [Boundary(start, 1), Boundary(end, -1)], Before(t)) == Sum(bounds, Before(t)) + One(start < t < end)
      {
        AppendInterval(bounds, start, end, UpTo(t));
        AppendInterval(bounds, start, end, Before(t));
      }
    }
  }

  ghost predicate CountsTargets(bounds: seq<Boundary>, rows: seq<OutageEvent>, ids: seq<int>, from: int, to: int) {
    forall t :: from <= t < to ==>
      && Sum(bounds, UpTo(t)) == Depth(rows, ids, t)
      && Sum(bounds, Before(t)) == Carried(rows, ids, from, t)
  }

  /** The events listed for one target, clipped to the window. */
  method TargetBoundaries(events: seq<OutageEvent>, id: int, from: int, to: int,
                          before: seq<Boundary>) returns (bounds: seq<Boundary>)
    requires forall e :: e in events ==> e.target == id && e.startedAt < to && (e.endedAt.None? || e.endedAt.value > from)
    requires WellFormed(before, from, to) && Sum(before, Delta()) == 0
    ensures WellFormed(bounds, from, to) && Sum(bounds, Delta()) == 0
    ensures CountsEvents(bounds, before, events, id, from, to)
  {
    bounds := before;
    for j := 0 to |events|
      invariant WellFormed(bounds, from, to) && Sum(bounds, Delta()) == 0
      invariant CountsEvents(bounds, before, events[..j], id, from, to)
    {
      var (start, end) := Clip(events[j], from, to);
      assert events[j] in events;
      CountsOneMore(bounds, before, events, id, from, to, j);
      if end <= start {
        continue;
      }
      AppendInterval(bounds, start, end, Delta());
      bounds := bounds + [Boundary(start, 1), Boundary(end, -1)];
    }
    assert events[..|events|] == events;
  }

  /** One more target: its listed events are all that run in the window. */
  lemma CountsOneTarget(bounds: seq<Boundary>, before: seq<Boundary>, rows: seq<OutageEvent>, ids: seq<int>, k: nat,
                        from: int, to: int)
    requires k < |ids| && ids[k] > 0 && CountsTargets(before, rows, ids[..k], from, to)
    requires CountsEvents(bounds, before, ListOutages(rows, from, to, ids[k]), ids[k], from, to)
    ensures CountsTargets(bounds, rows, ids[..k + 1], from, to)
  {
    assert ids[..k + 1][..k] == ids[..k];
    forall t | from <= t < to
      ensures Sum(bounds, UpTo(t)) == Depth(rows, ids[..k + 1], t)
      ensures Sum(bounds, Before(t)) == Carried(rows, ids[..k + 1], from, t)
    {
      ListedCounts(rows, from, to, ids[k], t);
    }
  }

  /** The boundary pair of every event, clipped to the window, in listing order; the k-th query may fail. */
  method Boundaries(rows: seq<OutageEvent>, ids: seq<int>, from: int, to: int, answers: nat -> bool)
    returns (ok: bool, bounds: seq<Boundary>)
    requires forall i :: 0 <= i < |ids| ==> ids[i] > 0
    ensures ok <==> forall k :: 0 <= k < |ids| ==> answers(k)
    ensures WellFormed(bounds, from, to) && Sum(bounds, Delta()) == 0
    ensures ok ==> CountsTargets(bounds, rows, ids, from, to)
  {
    ok, bounds := true, [];
    for k := 0 to |ids|
      invariant forall i :: 0 <= i < k ==> answers(i)
      invariant WellFormed(bounds, from, to) && Sum(bounds, Delta()) == 0
      invariant CountsTargets(bounds, rows, ids[..k], from, to)
    {
      if !answers(k) {
        return false, bounds;
      }
      ghost var before := bounds;
      OnlyListed(rows, from, to, ids[k]);
      bounds := TargetBoundaries(ListOutages(rows, from, to, ids[k]), ids[k], from, to, bounds);
      CountsOneTarget(bounds, before, rows, ids, k, from, to);
    }
    assert ids[..|ids|] == ids;
  }

  lemma OnlyListed(rows: seq<OutageEvent>, from: int, to: int, id: int)
    requires id > 0
    ensures forall e :: e in ListOutages(rows, from, to, id) ==> e.target == id && e.startedAt < to && (e.endedAt.None? || e.endedAt.value > from)
  {
    SortKeepsMembers(Filter(rows, Listed(from, to, id)), NewestFirst());
    FilterMembers(rows, Listed(from, to, id));
  }

  // ----- the sweep -----

  ghost function DeepBy(bounds: seq<Boundary>, n: nat): int -> bool {
    (t: int) => Sum(bounds, UpTo(t)) >= n
  }

  ghost function DeepensBy(bounds: seq<Boundary>, n: nat): int -> bool {
    (t: int) => Sum(bounds, UpTo(t)) >= n > Sum(bounds, Before(t))
  }

  /** Between the k-th boundary and the next one the level is constant, and only its first instant can deepen. */
  lemma Plateau(bounds: seq<Boundary>, n: nat, k: nat, cur: int, next: int)
    requires k <= |bounds| && Ordered(bounds, SweepOrder())
    requires forall i :: 0 <= i < |bounds| ==> bounds[i].delta == 1 || bounds[i].delta == -1
    requires forall i :: 0 <= i < k ==> bounds[i].ts <= cur
    requires forall i :: k <= i < |bounds| ==> next <= bounds[i].ts
    requires cur < next
    ensures var level := Sum(bounds[..k], Delta());
      && Measure(DeepBy(bounds, n), cur, next) == (if level >= n then next - cur else 0)
      && Measure(DeepensBy(bounds, n), cur, next) == One(level >= n > Sum(bounds, Before(cur)))
  {
    var level := Sum(bounds[..k], Delta());
    forall t | cur <= t < next ensures Sum(bounds, UpTo(t)) == level {
      PrefixSum(bounds, k, UpTo(t));
    }
    forall t | cur < t < next ensures Sum(bounds, Before(t)) == level {
      PrefixSum(bounds, k, Before(t));
    }
    MeasureConstant(DeepBy(bounds, n), cur, next, level >= n);
    MeasureConstant(DeepensBy(bounds, n), cur + 1, next, false);
    MeasureSplit(DeepensBy(bounds, n), cur, cur + 1, next);
    assert Measure(DeepensBy(bounds, n), cur, cur + 1) == Measure(DeepensBy(bounds, n), cur, cur) + One(DeepensBy(bounds, n)(cur));
  }

  /** Just before the first start at an instant, exactly the boundaries of Before have been handled. */
  lemma BeforeStart(bounds: seq<Boundary>, k: nat)
    requires k < |bounds| && Ordered(bounds, SweepOrder())
    requires forall i :: 0 <= i < |bounds| ==> bounds[i].delta == 1 || bounds[i].delta == -1
    requires k > 0 ==> bounds[k - 1].ts < bounds[k].ts || bounds[k - 1].delta == -1
    requires bounds[k].delta == 1
    ensures Sum(bounds, Before(bounds[k].ts)) == Sum(bounds[..k], Delta())
  {
    var key := SweepOrder();
    forall i | 0 <= i < |bounds| ensures i < k ==> key(bounds[i]) < key(bounds[k])
                                 ensures i >= k ==> key(bounds[k]) <= key(bounds[i])
    {
      assert i < k - 1 ==> key(bounds[i]) <= key(bounds[k - 1]);
    }
    PrefixSum(bounds, k, Before(bounds[k].ts));
  }

  /** If the boundary just handled is an end, everything counted by Before is handled. */
  lemma AfterEnd(bounds: seq<Boundary>, k: nat)
    requires 0 < k <= |bounds| && Ordered(bounds, SweepOrder())
    requires forall i :: 0 <= i < |bounds| ==> bounds[i].delta == 1 || bounds[i].delta == -1
    requires bounds[k - 1].delta == -1
    requires k < |bounds| ==> bounds[k - 1].ts < bounds[k].ts
    ensures Sum(bounds, Before(bounds[k - 1].ts)) == Sum(bounds[..k], Delta())
  {
    var key := SweepOrder();
    forall i | 0 <= i < |bounds| ensures i < k ==> key(bounds[i]) <= key(bounds[k - 1])
                                 ensures i >= k ==> bounds[i].ts > bounds[k - 1].ts
    {
      if i >= k {
        assert i > k ==> key(bounds[k]) <= key(bounds[i]);
      }
    }
    PrefixSum(bounds, k, Before(bounds[k - 1].ts));
  }

  ghost function Reached(bounds: seq<Boundary>, k: nat, from: int): int
    requires k <= |bounds|
  {
    if k == 0 then from else bounds[k - 1].ts
  }

  /** The current instant already deepened: its starts have begun and lifted the level from below n. */
  ghost predicate Deepening(bounds: seq<Boundary>, n: nat, k: nat)
    requires k <= |bounds|
  {
    k > 0 && bounds[k - 1].delta == 1 && Sum(bounds, Before(bounds[k - 1].ts)) < n <= Sum(bounds[..k], Delta())
  }

  /** Moving from the instant reached after k boundaries to a later one. */
  lemma Advance(bounds: seq<Boundary>, n: nat, k: nat, from: int, next: int)
    requires k <= |bounds| && Ordered(bounds, SweepOrder()) && n > 0
    requires forall i :: 0 <= i < |bounds| ==> from <= bounds[i].ts && (bounds[i].delta == 1 || bounds[i].delta == -1)
    requires Reached(bounds, k, from) < next
    requires forall i :: k <= i < |bounds| ==> next <= bounds[i].ts
    ensures var cur := Reached(bounds, k, from); var level := Sum(bounds[..k], Delta());
      && Measure(DeepBy(bounds, n), from, next) == Measure(DeepBy(bounds, n), from, cur) + (if level >= n then next - cur else 0)
      && Measure(DeepensBy(bounds, n), from, next) == Measure(DeepensBy(bounds, n), from, cur) + One(Deepening(bounds, n, k))
  {
    var cur := Reached(bounds, k, from);
    var key := SweepOrder();
    forall i | 0 <= i < k ensures bounds[i].ts <= cur {
      assert i < k - 1 ==> key(bounds[i]) <= key(bounds[k - 1]);
    }
    Plateau(bounds, n, k, cur, next);
    MeasureSplit(DeepBy(bounds, n), from, cur, next);
    MeasureSplit(DeepensBy(bounds, n), from, cur, next);
    if k == 0 {
      PrefixSum(bounds, 0, Before(from));
    } else if bounds[k - 1].delta == -1 {
      AfterEnd(bounds, k);
    }
  }

  /** A start lies strictly above the level that Before counts at its instant. */
  ghost predicate StartLifts(bounds: seq<Boundary>, k: nat)
    requires k <= |bounds|
  {
    k > 0 && bounds[k - 1].delta == 1 ==> Sum(bounds, Before(bounds[k - 1].ts)) < Sum(bounds[..k], Delta())
  }

  /** What handling boundary k does to both measures. */
  lemma Step(bounds: seq<Boundary>, n: nat, k: nat, from: int)
    requires k < |bounds| && Ordered(bounds, SweepOrder()) && n > 0
    requires forall i :: 0 <= i < |bounds| ==> from <= bounds[i].ts && (bounds[i].delta == 1 || bounds[i].delta == -1)
    requires StartLifts(bounds, k)
    ensures StartLifts(bounds, k + 1)
    ensures var cur, next := Reached(bounds, k, from), bounds[k].ts;
      var level, level' := Sum(bounds[..k], Delta()), Sum(bounds[..k + 1], Delta());
      && level' == level + bounds[k].delta
      && Measure(DeepBy(bounds, n), from, next) == Measure(DeepBy(bounds, n), from, cur) + (if level >= n then next - cur else 0)
      && Measure(DeepensBy(bounds, n), from, next) + One(Deepening(bounds, n, k + 1)) ==
         Measure(DeepensBy(bounds, n), from, cur) + One(Deepening(bounds, n, k)) + One(level < n <= level')
  {
    var b := bounds[k];
    SumStep(bounds[..k], b, Delta());
    assert bounds[..k + 1] == bounds[..k] + [b];
    var key := SweepOrder();
    assert k > 0 ==> key(bounds[k - 1]) <= key(b);
    if Reached(bounds, k, from) < b.ts {
      forall i | k <= i < |bounds| ensures b.ts <= bounds[i].ts {
        assert i > k ==> key(b) <= key(bounds[i]);
      }
      Advance(bounds, n, k, from, b.ts);
    }
    if b.delta == 1 && (k > 0 ==> bounds[k - 1].ts < b.ts || bounds[k - 1].delta == -1) {
      BeforeStart(bounds, k);
    }
  }

  // ----- intervals -----

  datatype Interval = Interval(start: int, end: int)

  ghost predicate Throughout(p: int -> bool, lo: int, hi: int) {
    forall t :: lo <= t < hi ==> p(t)
  }

  /** Intervals of positive length, in order and apart, each beginning where deepens holds and deep all the way. */
  ghost predicate AreIntervals(deep: int -> bool, deepens: int -> bool, from: int, to: int, ivs: seq<Interval>)
    decreases |ivs|
  {
    if |ivs| == 0 then from <= to
    else
      var iv := ivs[|ivs| - 1];
      && AreIntervals(deep, deepens, from, iv.start, ivs[..|ivs| - 1])
      && iv.start < iv.end <= to && deepens(iv.start) && Throughout(deep, iv.start, iv.end)
  }

  function Length(ivs: seq<Interval>): int {
    if |ivs| == 0 then 0 else Length(ivs[..|ivs| - 1]) + ivs[|ivs| - 1].end - ivs[|ivs| - 1].start
  }

  lemma {:induction false} SameIntervals(deep: int -> bool, deepens: int -> bool, deep': int -> bool,
                                         deepens': int -> bool, from: int, to: int, ivs: seq<Interval>)
    requires AreIntervals(deep, deepens, from, to, ivs)
    requires Agree(deep, deep', from, to) && Agree(deepens, deepens', from, to)
    ensures AreIntervals(deep', deepens', from, to, ivs)
    decreases |ivs|
  {
    if |ivs| > 0 {
      SameIntervals(deep, deepens, deep', deepens', from, ivs[|ivs| - 1].start, ivs[..|ivs| - 1]);
      IntervalsBound(deep, deepens, from, ivs[|ivs| - 1].start, ivs[..|ivs| - 1]);
    }
  }

  ghost predicate Agree(p: int -> bool, q: int -> bool, from: int, to: int) {
    forall t :: from <= t < to ==> p(t) == q(t)
  }

  lemma AddInterval(deep: int -> bool, deepens: int -> bool, from: int, ivs: seq<Interval>, start: int, end: int)
    requires AreIntervals(deep, deepens, from, start, ivs)
    requires start < end && deepens(start) && Throughout(deep, start, end)
    ensures AreIntervals(deep, deepens, from, end, ivs + [Interval(start, end)])
  {
    assert (ivs + [Interval(start, end)])[..|ivs|] == ivs;
  }

  lemma IntervalsLater(deep: int -> bool, deepens: int -> bool, from: int, to: int, ivs: seq<Interval>, later: int)
    requires AreIntervals(deep, deepens, from, to, ivs) && to <= later
    ensures AreIntervals(deep, deepens, from, later, ivs)
  {
  }

  ghost predicate InInterval(ivs: seq<Interval>, t: int) {
    exists i :: 0 <= i < |ivs| && ivs[i].start <= t < ivs[i].end
  }

  ghost predicate IsStart(ivs: seq<Interval>, t: int) {
    exists i :: 0 <= i < |ivs| && ivs[i].start == t
  }

  lemma InLonger(ivs: seq<Interval>, t: int)
    requires |ivs| > 0
    ensures InInterval(ivs, t) <==> InInterval(ivs[..|ivs| - 1], t) || ivs[|ivs| - 1].start <= t < ivs[|ivs| - 1].end
    ensures IsStart(ivs, t) <==> IsStart(ivs[..|ivs| - 1], t) || ivs[|ivs| - 1].start == t
  {
    var front := ivs[..|ivs| - 1];
    assert forall i :: 0 <= i < |front| ==> front[i] == ivs[i];
  }

  lemma {:induction false} IntervalsBound(deep: int -> bool, deepens: int -> bool, from: int, to: int, ivs: seq<Interval>)
    requires AreIntervals(deep, deepens, from, to, ivs)
    ensures from <= to
    decreases |ivs|
  {
    if |ivs| > 0 {
      IntervalsBound(deep, deepens, from, ivs[|ivs| - 1].start, ivs[..|ivs| - 1]);
    }
  }

  lemma {:induction false} IntervalsWithin(deep: int -> bool, deepens: int -> bool, from: int, to: int,
                                           ivs: seq<Interval>, t: int)
    requires AreIntervals(deep, deepens, from, to, ivs)
    ensures InInterval(ivs, t) || IsStart(ivs, t) ==> from <= t < to
    decreases |ivs|
  {
    if |ivs| > 0 {
      InLonger(ivs, t);
      IntervalsBound(deep, deepens, from, ivs[|ivs| - 1].start, ivs[..|ivs| - 1]);
      IntervalsWithin(deep, deepens, from, ivs[|ivs| - 1].start, ivs[..|ivs| - 1], t);
    }
  }

  lemma {:induction false} NothingLeft(p: int -> bool, lo: int, hi: int, t: int)
    requires lo <= t < hi && Measure(p, lo, hi) == 0
    ensures !p(t)
    decreases hi - lo
  {
    if t < hi - 1 {
      NothingLeft(p, lo, hi - 1, t);
    }
  }

  /** Such intervals cover no more than the deep milliseconds, and all of them if their lengths add up to as many. */
  lemma {:induction false} IntervalsCover(deep: int -> bool, deepens: int -> bool, from: int, to: int, ivs: seq<Interval>, t: int)
    requires AreIntervals(deep, deepens, from, to, ivs)
    ensures |ivs| <= Length(ivs) <= Measure(deep, from, to)
    ensures Length(ivs) == Measure(deep, from, to) && from <= t < to ==> (deep(t) <==> InInterval(ivs, t))
    decreases |ivs|
  {
    if |ivs| > 0 {
      var iv, front := ivs[|ivs| - 1], ivs[..|ivs| - 1];
      IntervalsCover(deep, deepens, from, iv.start, front, t);
      IntervalsBound(deep, deepens, from, iv.start, front);
      IntervalsWithin(deep, deepens, from, iv.start, front, t);
      InLonger(ivs, t);
      MeasureSplit(deep, from, iv.start, to);
      MeasureSplit(deep, iv.start, iv.end, to);
      MeasureConstant(deep, iv.start, iv.end, true);
      if Length(ivs) == Measure(deep, from, to) && iv.end <= t < to {
        NothingLeft(deep, iv.end, to, t);
      }
    } else if Measure(deep, from, to) == 0 && from <= t < to {
      NothingLeft(deep, from, to, t);
    }
  }

  /** Their starts are among the instants at which deepens holds, and they are all of them if there are as many. */
  lemma {:induction false} StartsCover(deep: int -> bool, deepens: int -> bool, from: int, to: int, ivs: seq<Interval>, t: int)
    requires AreIntervals(deep, deepens, from, to, ivs)
    ensures |ivs| <= Measure(deepens, from, to)
    ensures |ivs| == Measure(deepens, from, to) && from <= t < to ==> (deepens(t) <==> IsStart(ivs, t))
    decreases |ivs|
  {
    if |ivs| > 0 {
      var iv, front := ivs[|ivs| - 1], ivs[..|ivs| - 1];
      StartsCover(deep, deepens, from, iv.start, front, t);
      IntervalsBound(deep, deepens, from, iv.start, front);
      IntervalsWithin(deep, deepens, from, iv.start, front, t);
      InLonger(ivs, t);
      MeasureSplit(deepens, from, iv.start, to);
      MeasureSplit(deepens, iv.start, iv.start + 1, to);
      MeasureConstant(deepens, iv.start, iv.start + 1, true);
      if |ivs| == Measure(deepens, from, to) && iv.start < t < to {
        NothingLeft(deepens, iv.start + 1, to, t);
      }
    } else if Measure(deepens, from, to) == 0 && from <= t < to {
      NothingLeft(deepens, from, to, t);
    }
  }

  /** The sweep is inside an interval that began at since: with a start that lifted the level to n, which it has kept. */
  ghost predicate Inside(bounds: seq<Boundary>, n: nat, k: nat, from: int, since: int)
    requires k <= |bounds|
  {
    && from <= since <= Reached(bounds, k, from)
    && Throughout(DeepBy(bounds, n), since, Reached(bounds, k, from))
    && Sum(bounds, Before(since)) < n
    && exists j :: 0 <= j < k && bounds[j] == Boundary(since, 1)
  }

  ghost predicate Sweepable(bounds: seq<Boundary>, from: int) {
    Ordered(bounds, SweepOrder()) && forall i :: 0 <= i < |bounds| ==> from <= bounds[i].ts && (bounds[i].delta == 1 || bounds[i].delta == -1)
  }

  /** Until the next boundary the level stays what it is. */
  lemma LevelUntilNext(bounds: seq<Boundary>, k: nat, from: int, t: int)
    requires k < |bounds| && Sweepable(bounds, from) && Reached(bounds, k, from) <= t < bounds[k].ts
    ensures Sum(bounds, UpTo(t)) == Sum(bounds[..k], Delta())
  {
    var key := SweepOrder();
    forall i | 0 <= i < |bounds| ensures i < k ==> bounds[i].ts <= t
                                 ensures k <= i ==> t < bounds[i].ts
    {
      assert i < k - 1 ==> key(bounds[i]) <= key(bounds[k - 1]);
      assert k < i ==> key(bounds[k]) <= key(bounds[i]);
    }
    PrefixSum(bounds, k, UpTo(t));
  }

  lemma Opens(bounds: seq<Boundary>, n: nat, k: nat, from: int)
    requires k < |bounds| && Sweepable(bounds, from) && StartLifts(bounds, k + 1)
    requires Sum(bounds[..k], Delta()) < n == Sum(bounds[..k + 1], Delta())
    ensures Inside(bounds, n, k + 1, from, bounds[k].ts)
  {
    SumStep(bounds[..k], bounds[k], Delta());
    assert bounds[..k + 1] == bounds[..k] + [bounds[k]];
    assert bounds[k] == Boundary(bounds[k].ts, 1);
  }

  lemma ReachedAscends(bounds: seq<Boundary>, k: nat, from: int)
    requires k < |bounds| && Sweepable(bounds, from)
    ensures Reached(bounds, k, from) <= bounds[k].ts
  {
    assert k > 0 ==> SweepOrder()(bounds[k - 1]) <= SweepOrder()(bounds[k]);
  }

  lemma StaysInside(bounds: seq<Boundary>, n: nat, k: nat, from: int, since: int)
    requires k < |bounds| && Sweepable(bounds, from) && Inside(bounds, n, k, from, since) && Sum(bounds[..k], Delta()) >= n
    ensures Inside(bounds, n, k + 1, from, since)
  {
    ReachedAscends(bounds, k, from);
    forall t | since <= t < bounds[k].ts ensures DeepBy(bounds, n)(t) {
      if Reached(bounds, k, from) <= t {
        LevelUntilNext(bounds, k, from, t);
      }
    }
    var j :| 0 <= j < k && bounds[j] == Boundary(since, 1);
    assert bounds[j] == Boundary(since, 1) && j < k + 1;
  }

  /** An interval closes at an end, which comes before the starts of its instant: so it began earlier. */
  lemma Closes(bounds: seq<Boundary>, n: nat, k: nat, from: int, since: int)
    requires k < |bounds| && Sweepable(bounds, from) && Inside(bounds, n, k + 1, from, since) && bounds[k].delta == -1
    ensures since < bounds[k].ts && DeepensBy(bounds, n)(since) && Throughout(DeepBy(bounds, n), since, bounds[k].ts)
  {
    var j :| 0 <= j < k + 1 && bounds[j] == Boundary(since, 1);
    assert j < k && SweepOrder()(bounds[j]) <= SweepOrder()(bounds[k]);
    assert DeepBy(bounds, n)(since);
  }

  /** The intervals closed so far, and the one that is open if the level is at least n. */
  ghost predicate Tracks(bounds: seq<Boundary>, n: nat, k: nat, from: int, allDown: bool, since: int, ivs: seq<Interval>)
    requires k <= |bounds|
  {
    && (allDown ==> Inside(bounds, n, k, from, since))
    && AreIntervals(DeepBy(bounds, n), DeepensBy(bounds, n), from, if allDown then since else Reached(bounds, k, from), ivs)
  }

  lemma TracksStep(bounds: seq<Boundary>, n: nat, k: nat, from: int, since: int, ivs: seq<Interval>)
    requires k < |bounds| && Sweepable(bounds, from) && StartLifts(bounds, k + 1)
    requires Tracks(bounds, n, k, from, Sum(bounds[..k], Delta()) >= n, since, ivs)
    ensures var before, after := Sum(bounds[..k], Delta()) >= n, Sum(bounds[..k + 1], Delta()) >= n;
      && (before == after ==> Tracks(bounds, n, k + 1, from, after, since, ivs))
      && (!before && after ==> Tracks(bounds, n, k + 1, from, after, bounds[k].ts, ivs))
      && (before && !after ==> Tracks(bounds, n, k + 1, from, after, since, ivs + [Interval(since, bounds[k].ts)]))
  {
    SumStep(bounds[..k], bounds[k], Delta());
    assert bounds[..k + 1] == bounds[..k] + [bounds[k]];
    ReachedAscends(bounds, k, from);
    if Sum(bounds[..k], Delta()) >= n {
      StaysInside(bounds, n, k, from, since);
      if Sum(bounds[..k + 1], Delta()) < n {
        Closes(bounds, n, k, from, since);
        AddInterval(DeepBy(bounds, n), DeepensBy(bounds, n), from, ivs, since, bounds[k].ts);
      }
    } else {
      IntervalsLater(DeepBy(bounds, n), DeepensBy(bounds, n), from, Reached(bounds, k, from), ivs, bounds[k].ts);
      if Sum(bounds[..k + 1], Delta()) >= n {
        Opens(bounds, n, k, from);
      }
    }
  }

  lemma LengthOfMore(ivs: seq<Interval>, start: int, end: int)
    ensures Length(ivs + [Interval(start, end)]) == Length(ivs) + end - start
  {
    assert (ivs + [Interval(start, end)])[..|ivs|] == ivs;
  }

  /** The closed intervals so far, and the open one, account for both measures. */
  ghost predicate Accounts(bounds: seq<Boundary>, n: nat, k: nat, from: int, allDown: bool, since: int, count: int, totalMs: int)
    requires k <= |bounds|
  {
    && StartLifts(bounds, k)
    && totalMs + (if allDown then Reached(bounds, k, from) - since else 0) == Measure(DeepBy(bounds, n), from, Reached(bounds, k, from))
    && count + One(allDown) == Measure(DeepensBy(bounds, n), from, Reached(bounds, k, from)) + One(Deepening(bounds, n, k))
  }

  lemma AccountsStep(bounds: seq<Boundary>, n: nat, k: nat, from: int, since: int, count: int, totalMs: int)
    requires k < |bounds| && Sweepable(bounds, from) && n > 0
    requires Accounts(bounds, n, k, from, Sum(bounds[..k], Delta()) >= n, since, count, totalMs)
    ensures Sum(bounds[..k + 1], Delta()) == Sum(bounds[..k], Delta()) + bounds[k].delta
    ensures var before, after := Sum(bounds[..k], Delta()) >= n, Sum(bounds[..k + 1], Delta()) >= n;
      && (before == after ==> Accounts(bounds, n, k + 1, from, after, since, count, totalMs))
      && (!before && after ==> Accounts(bounds, n, k + 1, from, after, bounds[k].ts, count, totalMs))
      && (before && !after ==> Accounts(bounds, n, k + 1, from, after, since, count + 1, totalMs + bounds[k].ts - since))
  {
    Step(bounds, n, k, from);
  }

  /** The variables of the sweep after k boundaries. */
  ghost predicate Swept(bounds: seq<Boundary>, n: nat, k: nat, from: int, allDown: bool, since: int, count: int,
                        totalMs: int, ivs: seq<Interval>)
    requires k <= |bounds|
  {
    && Accounts(bounds, n, k, from, allDown, since, count, totalMs) && Tracks(bounds, n, k, from, allDown, since, ivs)
    && |ivs| == count && Length(ivs) == totalMs
  }

  lemma SweptStep(bounds: seq<Boundary>, n: nat, k: nat, from: int, since: int, count: int, totalMs: int, ivs: seq<Interval>)
    requires k < |bounds| && Sweepable(bounds, from) && n > 0
    requires Swept(bounds, n, k, from, Sum(bounds[..k], Delta()) >= n, since, count, totalMs, ivs)
    ensures Sum(bounds[..k + 1], Delta()) == Sum(bounds[..k], Delta()) + bounds[k].delta
    ensures var before, after := Sum(bounds[..k], Delta()) >= n, Sum(bounds[..k + 1], Delta()) >= n;
      && (before == after ==> Swept(bounds, n, k + 1, from, after, since, count, totalMs, ivs))
      && (!before && after ==> Swept(bounds, n, k + 1, from, after, bounds[k].ts, count, totalMs, ivs))
      && (before && !after ==>
           Swept(bounds, n, k + 1, from, after, since, count + 1, totalMs + bounds[k].ts - since, ivs + [Interval(since, bounds[k].ts)]))
  {
    AccountsStep(bounds, n, k, from, since, count, totalMs);
    assert StartLifts(bounds, k + 1);
    TracksStep(bounds, n, k, from, since, ivs);
    LengthOfMore(ivs, since, bounds[k].ts);
  }

  /** After the last boundary nothing more happens. */
  lemma SweptEnd(bounds: seq<Boundary>, n: nat, from: int, to: int, since: int, count: int, totalMs: int, ivs: seq<Interval>)
    requires n > 0 && from < to && WellFormed(bounds, from, to) && Sweepable(bounds, from) && Sum(bounds, Delta()) == 0
    requires Swept(bounds, n, |bounds|, from, false, since, count, totalMs, ivs)
    ensures totalMs == Measure(DeepBy(bounds, n), from, to) == Length(ivs)
    ensures count == Measure(DeepensBy(bounds, n), from, to) == |ivs|
    ensures AreIntervals(DeepBy(bounds, n), DeepensBy(bounds, n), from, to, ivs)
  {
    assert bounds[..|bounds|] == bounds;
    IntervalsLater(DeepBy(bounds, n), DeepensBy(bounds, n), from, Reached(bounds, |bounds|, from), ivs, to);
    if Reached(bounds, |bounds|, from) < to {
      Advance(bounds, n, |bounds|, from, to);
    }
  }

  /**
   The sweep. The level returns to zero at the last boundary, so an interval can never still be open after it:
   the closing step that the source performs after its loop is dead.
   */
  method Sweep(bounds: seq<Boundary>, n: nat, from: int, to: int) returns (count: int, totalMs: int, ghost ivs: seq<Interval>)
    requires n > 0 && from < to
    requires WellFormed(bounds, from, to) && Ordered(bounds, SweepOrder()) && Sum(bounds, Delta()) == 0
    ensures totalMs == Measure(DeepBy(bounds, n), from, to)
    ensures count == Measure(DeepensBy(bounds, n), from, to)
    ensures AreIntervals(DeepBy(bounds, n), DeepensBy(bounds, n), from, to, ivs) && count == |ivs| && totalMs == Length(ivs)
  {
    count, totalMs, ivs := 0, 0, [];
    var down := 0;
    var downSince := 0;
    var allDown := false;
    for k := 0 to |bounds|
      invariant down == Sum(bounds[..k], Delta()) && (allDown <==> down >= n)
      invariant Swept(bounds, n, k, from, allDown, downSince, count, totalMs, ivs)
    {
      var b := bounds[k];
      SweptStep(bounds, n, k, from, downSince, count, totalMs, ivs);
      down := down + b.delta;
      if !allDown && down == n {
        allDown := true;
        downSince := b.ts;
      } else if allDown && down < n {
        allDown := false;
        count := count + 1;
        totalMs := totalMs + b.ts - downSince;
        ivs := ivs + [Interval(downSince, b.ts)];
      }
    }
    assert bounds[..|bounds|] == bounds;
    if allDown {
      assert false;
    }
    SweptEnd(bounds, n, from, to, downSince, count, totalMs, ivs);
  }

  // ----- what the sweep's numbers mean -----

  /** Every event set counts at least one running event per target that is down, and exactly one if events are disjoint. */
  lemma {:induction false} DepthOfAllDown(rows: seq<OutageEvent>, ids: seq<int>, t: int)
    ensures AllDown(rows, ids)(t) ==> Depth(rows, ids, t) >= |ids|
    ensures (forall i :: 0 <= i < |ids| ==> Disjoint(rows, ids[i])) ==>
      Depth(rows, ids, t) <= |ids| && (AllDown(rows, ids)(t) <==> Depth(rows, ids, t) == |ids|)
  {
    if |ids| > 0 {
      var front, last := ids[..|ids| - 1], ids[|ids| - 1];
      DepthOfAllDown(rows, front, t);
      DownAtIsCount(rows, last, t);
      assert AllDown(rows, ids)(t) ==> AllDown(rows, front)(t) && DownAt(rows, ids[|ids| - 1], t);
      assert AllDown(rows, front)(t) && DownAt(rows, last, t) ==> AllDown(rows, ids)(t);
    }
  }

  /** The events of some target overlap at t. */
  ghost predicate OverlapAt(rows: seq<OutageEvent>, ids: seq<int>, t: int) {
    exists i :: 0 <= i < |ids| && Count(rows, RunningAt(ids[i], t)) >= 2
  }

  /** Only where the events of a target overlap can the sweep see an outage while some target is up. */
  lemma {:induction false} FalseOutageIsOverlap(rows: seq<OutageEvent>, ids: seq<int>, t: int)
    requires !OverlapAt(rows, ids, t)
    ensures Depth(rows, ids, t) <= |ids| && (Deep(rows, ids)(t) <==> AllDown(rows, ids)(t))
  {
    if |ids| > 0 {
      var front := ids[..|ids| - 1];
      assert Count(rows, RunningAt(ids[|ids| - 1], t)) < 2;
      forall i | 0 <= i < |front| ensures Count(rows, RunningAt(front[i], t)) < 2 {
        assert front[i] == ids[i];
      }
      FalseOutageIsOverlap(rows, front, t);
      DownAtIsCount(rows, ids[|ids| - 1], t);
      AllDownStep(rows, ids, t);
    }
  }

  /**
   For any event table the sweep reports at least the true all-down time, and it reports exactly that time if and
   only if no millisecond has as many running events as there are targets while some target is up. If no two events of
   one target overlap in the window that is so.
   */
  lemma SweepOverestimates(rows: seq<OutageEvent>, ids: seq<int>, from: int, to: int)
    ensures Measure(AllDown(rows, ids), from, to) <= Measure(Deep(rows, ids), from, to)
    ensures Measure(AllDown(rows, ids), from, to) == Measure(Deep(rows, ids), from, to) <==>
      forall t :: from <= t < to && Depth(rows, ids, t) >= |ids| ==> AllDown(rows, ids)(t)
    ensures (forall t :: from <= t < to ==> !OverlapAt(rows, ids, t)) ==>
      Measure(AllDown(rows, ids), from, to) == Measure(Deep(rows, ids), from, to)
  {
    forall t ensures AllDown(rows, ids)(t) ==> Deep(rows, ids)(t) {
      DepthOfAllDown(rows, ids, t);
    }
    forall t | from <= t < to && !OverlapAt(rows, ids, t) ensures Deep(rows, ids)(t) <==> AllDown(rows, ids)(t) {
      FalseOutageIsOverlap(rows, ids, t);
    }
    MeasureMonotone(AllDown(rows, ids), Deep(rows, ids), from, to);
  }

  /** Two open rows of one target really do make the sweep report an outage while another target is up. */
  lemma OverlapMisleadsTheSweep(rows: seq<OutageEvent>)
    requires rows == [OutageEvent(1, 0, None), OutageEvent(1, 20, None)]
    ensures Measure(Deep(rows, [1, 2]), 20, 30) == 10 && Measure(AllDown(rows, [1, 2]), 20, 30) == 0
  {
    var ids := [1, 2];
    assert ids[..1] == [1];
    assert rows[..1] == [OutageEvent(1, 0, None)];
    forall t | 20 <= t < 30 ensures Deep(rows, ids)(t) && !AllDown(rows, ids)(t) {
      assert Count(rows, RunningAt(1, t)) == 2;
      assert Depth(rows, ids[..1], t) == Depth(rows, ids[..1][..0], t) + 2;
      assert !DownAt(rows, ids[1], t);
    }
    MeasureConstant(Deep(rows, ids), 20, 30, true);
    MeasureConstant(AllDown(rows, ids), 20, 30, false);
  }

  ghost predicate AllDisjoint(rows: seq<OutageEvent>, ids: seq<int>) {
    forall i :: 0 <= i < |ids| ==> Disjoint(rows, ids[i])
  }

  ghost predicate BeginsAt(rows: seq<OutageEvent>, id: int, t: int) {
    exists j :: 0 <= j < |rows| && rows[j].target == id && rows[j].startedAt == t && Covers(rows[j], t)
  }

  /** An event of one of the targets begins at t. */
  ghost predicate SomeBegins(rows: seq<OutageEvent>, ids: seq<int>, t: int) {
    exists i :: 0 <= i < |ids| && BeginsAt(rows, ids[i], t)
  }

  lemma SomeBeginsStep(rows: seq<OutageEvent>, ids: seq<int>, t: int)
    requires |ids| > 0
    ensures SomeBegins(rows, ids, t) <==> SomeBegins(rows, ids[..|ids| - 1], t) || BeginsAt(rows, ids[|ids| - 1], t)
  {
    var front := ids[..|ids| - 1];
    if SomeBegins(rows, front, t) {
      var i :| 0 <= i < |front| && BeginsAt(rows, front[i], t);
      assert ids[i] == front[i];
    }
    if SomeBegins(rows, ids, t) {
      var i :| 0 <= i < |ids| && BeginsAt(rows, ids[i], t);
      assert i < |front| ==> front[i] == ids[i];
    }
  }

  lemma AllDownStep(rows: seq<OutageEvent>, ids: seq<int>, t: int)
    requires |ids| > 0
    ensures AllDown(rows, ids)(t) <==> AllDown(rows, ids[..|ids| - 1])(t) && DownAt(rows, ids[|ids| - 1], t)
  {
    var front := ids[..|ids| - 1];
    assert forall i :: 0 <= i < |front| ==> front[i] == ids[i];
    assert AllDown(rows, ids)(t) ==> DownAt(rows, ids[|ids| - 1], t);
  }

  /** An event of one of the targets begins at t although every target was already down at t - 1. */
  ghost predicate Handover(rows: seq<OutageEvent>, ids: seq<int>, t: int) {
    AllDown(rows, ids)(t - 1) && AllDown(rows, ids)(t) && SomeBegins(rows, ids, t)
  }

  /** With disjoint events a target is carried into t if and only if it is down at t by an event that did not begin at t. */
  lemma CarriedIsCount(rows: seq<OutageEvent>, id: int, from: int, t: int)
    requires from <= t
    ensures Count(rows, CarriedInto(id, from, t)) >= 1 ==> from < t && DownAt(rows, id, t - 1) && DownAt(rows, id, t)
    ensures Disjoint(rows, id) ==> Count(rows, CarriedInto(id, from, t)) <= 1
    ensures Disjoint(rows, id) && DownAt(rows, id, t) && from < t ==>
      (Count(rows, CarriedInto(id, from, t)) == 0 <==> BeginsAt(rows, id, t))
  {
    CountWitness(rows, CarriedInto(id, from, t));
    if Count(rows, CarriedInto(id, from, t)) >= 1 {
      var i :| 0 <= i < |rows| && CarriedInto(id, from, t)(rows[i]);
      assert Covers(rows[i], t - 1) && Covers(rows[i], t);
    }
    if Disjoint(rows, id) {
      forall i, j | 0 <= i < j < |rows| ensures !(CarriedInto(id, from, t)(rows[i]) && CarriedInto(id, from, t)(rows[j])) {
      }
    }
    if Disjoint(rows, id) && DownAt(rows, id, t) && from < t {
      var i :| 0 <= i < |rows| && rows[i].target == id && Covers(rows[i], t);
      if j :| 0 <= j < |rows| && rows[j].target == id && rows[j].startedAt == t && Covers(rows[j], t) {
        forall k | 0 <= k < |rows| ensures !CarriedInto(id, from, t)(rows[k]) {
          if CarriedInto(id, from, t)(rows[k]) {
            SameEvent(rows, id, j, k, t);
          }
        }
      } else {
        assert CarriedInto(id, from, t)(rows[i]);
      }
    }
  }

  /** At an all-down instant, all targets are carried over exactly if none of their events begins there. */
  lemma {:induction false} CarriedOfAllDown(rows: seq<OutageEvent>, ids: seq<int>, from: int, t: int)
    requires from <= t && AllDisjoint(rows, ids) && AllDown(rows, ids)(t)
    ensures Carried(rows, ids, from, t) <= |ids|
    ensures t == from ==> Carried(rows, ids, from, t) == 0
    ensures from < t && Carried(rows, ids, from, t) == |ids| ==> AllDown(rows, ids)(t - 1)
    ensures from < t ==> (Carried(rows, ids, from, t) < |ids| <==> SomeBegins(rows, ids, t))
  {
    if |ids| > 0 {
      var front, last := ids[..|ids| - 1], ids[|ids| - 1];
      AllDownStep(rows, ids, t);
      AllDownStep(rows, ids, t - 1);
      SomeBeginsStep(rows, ids, t);
      assert Disjoint(rows, ids[|ids| - 1]);
      forall i | 0 <= i < |front| ensures Disjoint(rows, front[i]) {
        assert front[i] == ids[i];
      }
      CarriedOfAllDown(rows, front, from, t);
      CarriedIsCount(rows, last, from, t);
    }
  }

  lemma DeepensIsBeginOrHandover(rows: seq<OutageEvent>, ids: seq<int>, from: int, t: int)
    requires AllDisjoint(rows, ids) && |ids| > 0 && from <= t
    ensures Deepens(rows, ids, from)(t) <==> OutageBegins(rows, ids, from)(t) || (from < t && Handover(rows, ids, t))
  {
    DepthOfAllDown(rows, ids, t);
    if AllDown(rows, ids)(t) {
      CarriedOfAllDown(rows, ids, from, t);
    }
  }

  /**
   With disjoint events the sweep counts at least the maximal all-down intervals, and exactly those if and only if
   no instant inside the window hands an outage over from one event to the next.
   */
  lemma SweepCountsIntervals(rows: seq<OutageEvent>, ids: seq<int>, from: int, to: int)
    requires AllDisjoint(rows, ids) && |ids| > 0
    ensures Measure(OutageBegins(rows, ids, from), from, to) <= Measure(Deepens(rows, ids, from), from, to)
    ensures Measure(OutageBegins(rows, ids, from), from, to) == Measure(Deepens(rows, ids, from), from, to) <==>
      forall t :: from < t < to ==> !Handover(rows, ids, t)
  {
    var begins, deepens := OutageBegins(rows, ids, from), Deepens(rows, ids, from);
    forall t | from <= t < to ensures deepens(t) <==> begins(t) || (from < t && Handover(rows, ids, t)) {
      DeepensIsBeginOrHandover(rows, ids, from, t);
    }
    MeasureMonotone(begins, deepens, from, to);
    if forall t :: from <= t < to ==> begins(t) == deepens(t) {
      forall t | from < t < to ensures !Handover(rows, ids, t) {
        assert begins(t) == deepens(t);
      }
    }
  }

  lemma SeparatedHasNoHandover(rows: seq<OutageEvent>, ids: seq<int>, t: int)
    requires AllDisjoint(rows, ids)
    requires forall i :: 0 <= i < |ids| ==> Separated(rows, ids[i])
    ensures !Handover(rows, ids, t)
  {
  }

  /** Every counted outage lasts at least a millisecond, lies in the window, and ends before the next one begins. */
  lemma {:induction false} CountedIntervalsArePositive(deep: int -> bool, deepens: int -> bool, from: int, to: int,
                                                       ivs: seq<Interval>, i: nat)
    requires AreIntervals(deep, deepens, from, to, ivs) && i < |ivs|
    ensures from <= ivs[i].start < ivs[i].end <= to
    ensures i + 1 < |ivs| ==> ivs[i].end <= ivs[i + 1].start
    decreases |ivs|
  {
    var front := ivs[..|ivs| - 1];
    IntervalsBound(deep, deepens, from, ivs[|ivs| - 1].start, front);
    if i < |front| {
      CountedIntervalsArePositive(deep, deepens, from, ivs[|ivs| - 1].start, front, i);
    }
  }

  /** The outages that the summary counts: intervals of a window in which enough events run. */
  ghost predicate AreOutages(rows: seq<OutageEvent>, ids: seq<int>, from: int, to: int, count: int, totalMs: int,
                             ivs: seq<Interval>) {
    && AreIntervals(Deep(rows, ids), Deepens(rows, ids, from), from, to, ivs)
    && count == |ivs| == Measure(Deepens(rows, ids, from), from, to)
    && totalMs == Length(ivs) == Measure(Deep(rows, ids), from, to)
  }

  /** They leave nothing out: every millisecond with enough events lies in one, and one begins wherever the events become enough. */
  lemma OutagesAreExact(rows: seq<OutageEvent>, ids: seq<int>, from: int, to: int, count: int, totalMs: int,
                        ivs: seq<Interval>, t: int)
    requires AreOutages(rows, ids, from, to, count, totalMs, ivs) && from <= t < to
    ensures Deep(rows, ids)(t) <==> InInterval(ivs, t)
    ensures Deepens(rows, ids, from)(t) <==> IsStart(ivs, t)
  {
    IntervalsCover(Deep(rows, ids), Deepens(rows, ids, from), from, to, ivs, t);
    StartsCover(Deep(rows, ids), Deepens(rows, ids, from), from, to, ivs, t);
  }

  /** There is nothing to measure, or a query fails. */
  ghost predicate Unmeasured(ids: seq<int>, from: int, to: int, answers: nat -> bool) {
    |ids| == 0 || to <= from || exists k :: 0 <= k < |ids| && !answers(k)
  }

  method InternetOutageStats(rows: seq<OutageEvent>, targets: seq<Target>, from: int, to: int, answers: nat -> bool)
    returns (uptimePct: real, count: int, totalMs: int, ghost ivs: seq<Interval>)
    requires AreKeys(targets)
    ensures var ids := Tier3(targets);
      if Unmeasured(ids, from, to, answers) then uptimePct == 100.0 && count == totalMs == 0
      else
        && count == Measure(Deepens(rows, ids, from), from, to) && totalMs == Measure(Deep(rows, ids), from, to)
        && 0 <= count <= totalMs <= to - from
        && uptimePct == 100.0 * (1.0 - totalMs as real / (to - from) as real)
        && (AllDisjoint(rows, ids) ==> totalMs == Measure(AllDown(rows, ids), from, to))
        && (AllDisjoint(rows, ids) && (forall i :: 0 <= i < |ids| ==> Separated(rows, ids[i])) ==>
            count == Measure(OutageBegins(rows, ids, from), from, to))
    ensures !Unmeasured(Tier3(targets), from, to, answers) ==>
      AreOutages(rows, Tier3(targets), from, to, count, totalMs, ivs)
  {
    ivs := [];
    var ids := Tier3(targets);
    if |ids| == 0 || to <= from {
      return 100.0, 0, 0, ivs;
    }
    Tier3AreKeys(targets);
    var ok, bounds := Boundaries(rows, ids, from, to, answers);
    if !ok {
      return 100.0, 0, 0, ivs;
    }
    Meanings(rows, ids, from, to);
    if |bounds| == 0 {
      NoBoundsNoOutage(rows, ids, from, to);
      return 100.0, 0, 0, ivs;
    }
    var sorted := Sort(bounds, SweepOrder());
    SortedBoundsMean(bounds, rows, ids, from, to, sorted);
    count, totalMs, ivs := Sweep(sorted, |ids|, from, to);
    SameIntervals(DeepBy(sorted, |ids|), DeepensBy(sorted, |ids|), Deep(rows, ids), Deepens(rows, ids, from), from, to, ivs);
    IntervalsCover(Deep(rows, ids), Deepens(rows, ids, from), from, to, ivs, from);
    uptimePct := 100.0 * (1.0 - totalMs as real / (to - from) as real);
  }

  lemma SortedAgrees(bounds: seq<Boundary>, rows: seq<OutageEvent>, ids: seq<int>, from: int, to: int, sorted: seq<Boundary>)
    requires CountsTargets(bounds, rows, ids, from, to) && sorted == Sort(bounds, SweepOrder())
    ensures Agree(DeepBy(sorted, |ids|), Deep(rows, ids), from, to)
    ensures Agree(DeepensBy(sorted, |ids|), Deepens(rows, ids, from), from, to)
  {
    forall t | from <= t < to
      ensures Sum(sorted, UpTo(t)) == Depth(rows, ids, t) && Sum(sorted, Before(t)) == Carried(rows, ids, from, t)
    {
      SumSort(bounds, SweepOrder(), UpTo(t));
      SumSort(bounds, SweepOrder(), Before(t));
    }
  }

  /** Sorting the boundaries changes neither what they bound nor what they count. */
  lemma SortedBoundsMean(bounds: seq<Boundary>, rows: seq<OutageEvent>, ids: seq<int>, from: int, to: int, sorted: seq<Boundary>)
    requires |ids| > 0 && from < to && sorted == Sort(bounds, SweepOrder())
    requires WellFormed(bounds, from, to) && Sum(bounds, Delta()) == 0 && CountsTargets(bounds, rows, ids, from, to)
    ensures WellFormed(sorted, from, to) && Ordered(sorted, SweepOrder()) && Sum(sorted, Delta()) == 0
    ensures Agree(DeepBy(sorted, |ids|), Deep(rows, ids), from, to)
    ensures Agree(DeepensBy(sorted, |ids|), Deepens(rows, ids, from), from, to)
    ensures Measure(DeepBy(sorted, |ids|), from, to) == Measure(Deep(rows, ids), from, to)
    ensures Measure(DeepensBy(sorted, |ids|), from, to) == Measure(Deepens(rows, ids, from), from, to)
  {
    SortedIsWellFormed(bounds, from, to);
    SumSort(bounds, SweepOrder(), Delta());
    SortedAgrees(bounds, rows, ids, from, to, sorted);
    MeasureMonotone(DeepBy(sorted, |ids|), Deep(rows, ids), from, to);
    MeasureMonotone(DeepensBy(sorted, |ids|), Deepens(rows, ids, from), from, to);
  }

  lemma NoBoundsNoOutage(rows: seq<OutageEvent>, ids: seq<int>, from: int, to: int)
    requires |ids| > 0 && from < to && CountsTargets([], rows, ids, from, to)
    ensures Measure(Deep(rows, ids), from, to) == 0
  {
    forall t | from <= t < to ensures !Deep(rows, ids)(t) {
      assert Sum([], UpTo(t)) == 0;
    }
    MeasureConstant(Deep(rows, ids), from, to, false);
  }

  lemma SortedIsWellFormed(bounds: seq<Boundary>, from: int, to: int)
    requires WellFormed(bounds, from, to)
    ensures var sorted := Sort(bounds, SweepOrder()); WellFormed(sorted, from, to) && Ordered(sorted, SweepOrder())
  {
    var sorted := Sort(bounds, SweepOrder());
    SortIsOrdered(bounds, SweepOrder());
    SortKeepsMembers(bounds, SweepOrder());
    forall i | 0 <= i < |sorted| ensures from <= sorted[i].ts <= to && (sorted[i].delta == 1 || sorted[i].delta == -1) {
      assert sorted[i] in sorted;
    }
  }

  lemma Meanings(rows: seq<OutageEvent>, ids: seq<int>, from: int, to: int)
    requires |ids| > 0 && from < to
    ensures Measure(Deepens(rows, ids, from), from, to) <= Measure(Deep(rows, ids), from, to)
    ensures AllDisjoint(rows, ids) ==> Measure(Deep(rows, ids), from, to) == Measure(AllDown(rows, ids), from, to)
    ensures AllDisjoint(rows, ids) && (forall i :: 0 <= i < |ids| ==> Separated(rows, ids[i])) ==>
      Measure(Deepens(rows, ids, from), from, to) == Measure(OutageBegins(rows, ids, from), from, to)
  {
    MeasureMonotone(Deepens(rows, ids, from), Deep(rows, ids), from, to);
    SweepOverestimates(rows, ids, from, to);
    if AllDisjoint(rows, ids) {
      forall t ensures Depth(rows, ids, t) >= |ids| ==> AllDown(rows, ids)(t) {
        DepthOfAllDown(rows, ids, t);
      }
      SweepCountsIntervals(rows, ids, from, to);
      if forall i :: 0 <= i < |ids| ==> Separated(rows, ids[i]) {
        forall t ensures !Handover(rows, ids, t) {
          SeparatedHasNoHandover(rows, ids, t);
        }
      }
    }
  }

  lemma Tier3AreKeys(targets: seq<Target>)
    requires AreKeys(targets)
    ensures forall i :: 0 <= i < |Tier3(targets)| ==> Tier3(targets)[i] > 0
  {
    FilterMembers(targets, IsTier3());
    var picked := Filter(targets, IsTier3());
    forall i | 0 <= i < |picked| ensures picked[i].id > 0 {
      assert picked[i] in picked;
    }
  }

  /** At and after the latest start of its open rows every target is down, and nothing begins later. */
  lemma OpenSince(rows: seq<OutageEvent>, ids: seq<int>, open: seq<nat>, latest: int, from: int)
    requires |ids| > 0 && |open| == |ids| && AllDisjoint(rows, ids)
    requires forall i :: 0 <= i < |ids| ==> open[i] < |rows| && rows[open[i]].target == ids[i] && rows[open[i]].endedAt.None?
    requires forall i :: 0 <= i < |ids| ==> rows[open[i]].startedAt <= latest
    requires exists i :: 0 <= i < |ids| && rows[open[i]].startedAt == latest
    ensures var since := Max(latest, from);
      && Deepens(rows, ids, from)(since)
      && (forall t :: since < t ==> !Deepens(rows, ids, from)(t))
      && (forall t :: since <= t ==> AllDown(rows, ids)(t))
  {
    var since := Max(latest, from);
    forall t | since <= t ensures AllDown(rows, ids)(t) {
      forall i | 0 <= i < |ids| ensures DownAt(rows, ids[i], t) {
        assert Covers(rows[open[i]], t);
      }
    }
    DepthOfAllDown(rows, ids, since);
    CarriedOfAllDown(rows, ids, from, since);
    if from < since {
      var i :| 0 <= i < |ids| && rows[open[i]].startedAt == latest;
      assert rows[open[i]].startedAt == since && Covers(rows[open[i]], since);
      assert BeginsAt(rows, ids[i], since);
    }
    forall t | since < t ensures !Deepens(rows, ids, from)(t) {
      CarriedOfAllDown(rows, ids, from, t);
      if i :| 0 <= i < |ids| && BeginsAt(rows, ids[i], t) {
        var j :| 0 <= j < |rows| && rows[j].target == ids[i] && rows[j].startedAt == t && Covers(rows[j], t);
        SameEvent(rows, ids[i], open[i], j, t);
      }
    }
  }

  /**
   If every tier-3 target has an open outage at the end of the window, the last outage that the sweep counts reaches to
   that end, and it begins when the last of the targets went down, or at the start of the window if that is later.
   */
  lemma LastIntervalSince(rows: seq<OutageEvent>, ids: seq<int>, open: seq<nat>, latest: int, from: int, to: int,
                          count: int, totalMs: int, ivs: seq<Interval>)
    requires |ids| > 0 && |open| == |ids| && AllDisjoint(rows, ids)
    requires forall i :: 0 <= i < |ids| ==> open[i] < |rows| && rows[open[i]].target == ids[i] && rows[open[i]].endedAt.None?
    requires forall i :: 0 <= i < |ids| ==> rows[open[i]].startedAt <= latest
    requires exists i :: 0 <= i < |ids| && rows[open[i]].startedAt == latest
    requires latest < to && from < to && AreOutages(rows, ids, from, to, count, totalMs, ivs)
    ensures |ivs| > 0 && ivs[|ivs| - 1] == Interval(Max(latest, from), to)
    ensures forall t :: Max(latest, from) <= t < to ==> AllDown(rows, ids)(t)
  {
    var since := Max(latest, from);
    OpenSince(rows, ids, open, latest, from);
    OutagesAreExact(rows, ids, from, to, count, totalMs, ivs, since);
    DepthOfAllDown(rows, ids, to - 1);
    OutagesAreExact(rows, ids, from, to, count, totalMs, ivs, to - 1);
    LastIsLast(Deep(rows, ids), Deepens(rows, ids, from), from, to, ivs, since);
  }

  /** If the last instant is covered and no start comes after since, the last interval goes from since to the end. */
  lemma LastIsLast(deep: int -> bool, deepens: int -> bool, from: int, to: int, ivs: seq<Interval>, since: int)
    requires AreIntervals(deep, deepens, from, to, ivs) && IsStart(ivs, since) && InInterval(ivs, to - 1)
    requires forall t :: since < t ==> !deepens(t)
    ensures |ivs| > 0 && ivs[|ivs| - 1] == Interval(since, to)
  {
    var last, front := ivs[|ivs| - 1], ivs[..|ivs| - 1];
    InLonger(ivs, since);
    InLonger(ivs, to - 1);
    IntervalsWithin(deep, deepens, from, last.start, front, since);
    IntervalsWithin(deep, deepens, from, last.start, front, to - 1);
    assert deepens(last.start);
  }
}
