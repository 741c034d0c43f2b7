/** Runs of consecutive failed pings, and the median gap between them. */
module LossBursts {
  import opened Common
  import opened Sorting
  import opened OutageMachine

  datatype Burst = Burst(startedAt: int, endedAt: int, lost: nat, gapMs: Option<int>)

  /** The gap is measured only from a burst that ended after time zero. */
  function GapFrom(bursts: seq<Burst>, start: int): Option<int> {
    if |bursts| > 0 && bursts[|bursts| - 1].endedAt > 0 then Some(start - bursts[|bursts| - 1].endedAt) else None
  }

  /** The failures that end the history, as a burst. */
  function OpenBurst(h: seq<Sample>): Burst
    requires Run(h, false) > 0
  {
    var start := RunStart(h, false);
    Burst(start, h[|h| - 1].ts, Run(h, false), GapFrom(ClosedBursts(h), start))
  }

  /** The bursts that a success has ended. */
  function ClosedBursts(h: seq<Sample>): seq<Burst> {
    if |h| == 0 then []
    else
      var front := h[..|h| - 1];
      if h[|h| - 1].success && Run(front, false) > 0 then
        var start := RunStart(front, false);
        ClosedBursts(front) + [Burst(start, front[|front| - 1].ts, Run(front, false), GapFrom(ClosedBursts(front), start))]
      else ClosedBursts(front)
  }

  function Bursts(h: seq<Sample>): seq<Burst> {
    if Run(h, false) > 0 then ClosedBursts(h) + [OpenBurst(h)] else ClosedBursts(h)
  }

  lemma HistoryStep(h: seq<Sample>, s: Sample, next: seq<Sample>)
    requires next == h + [s]
    ensures
      && Run(next, false) == (if s.success then 0 else Run(h, false) + 1)
      && (!s.success ==> RunStart(next, false) == if Run(h, false) > 0 then RunStart(h, false) else s.ts)
      && ClosedBursts(next) == (if s.success && Run(h, false) > 0 then ClosedBursts(h) + [OpenBurst(h)] else ClosedBursts(h))
      && Count(next, Failure()) == Count(h, Failure()) + (if s.success then 0 else 1)
      && (!s.success ==>
           OpenBurst(next) == if Run(h, false) > 0 then OpenBurst(h).(endedAt := s.ts, lost := Run(h, false) + 1)
           else Burst(s.ts, s.ts, 1, GapFrom(ClosedBursts(h), s.ts)))
  {
    assert next[..|next| - 1] == h;
  }

  /** The variables of the scan after the counted samples h. */
  ghost predicate Scanned(h: seq<Sample>, sent: nat, lost: nat, bursts: seq<Burst>, prevEnd: int, cur: Option<Burst>) {
    && sent == |h| && lost == Count(h, Failure()) && bursts == ClosedBursts(h)
    && prevEnd == (if |bursts| > 0 then bursts[|bursts| - 1].endedAt else 0)
    && cur == if Run(h, false) > 0 then Some(OpenBurst(h)) else None
  }

  /** One counted sample. */
  method Scan(sm: Sample, lost: nat, bursts: seq<Burst>, prevEnd: int, cur: Option<Burst>, ghost h: seq<Sample>,
              ghost next: seq<Sample>)
    returns (lost': nat, bursts': seq<Burst>, prevEnd': int, cur': Option<Burst>)
    requires Scanned(h, |h|, lost, bursts, prevEnd, cur) && next == h + [sm]
    ensures Scanned(next, |next|, lost', bursts', prevEnd', cur')
  {
    HistoryStep(h, sm, next);
    lost', bursts', prevEnd', cur' := lost, bursts, prevEnd, cur;
    if !sm.success {
      lost' := lost + 1;
      if cur.None? {
        var gap := if prevEnd > 0 then Some(sm.ts - prevEnd) else None;
        cur' := Some(Burst(sm.ts, sm.ts, 1, gap));
      } else {
        cur' := Some(cur.value.(endedAt := sm.ts, lost := cur.value.lost + 1));
      }
    } else if cur.Some? {
      prevEnd' := cur.value.endedAt;
      bursts' := bursts + [cur.value];
      cur' := None;
    }
  }

  method LossBursts(samples: seq<Sample>) returns (sent: nat, lost: nat, bursts: seq<Burst>, medianGapMs: int)
    ensures var h := Filter(samples, NotDuringSpeedtest());
      && sent == |h| && lost == Count(h, Failure()) && bursts == Bursts(h)
      && medianGapMs == Median(Gaps(bursts))
  {
    sent, lost, bursts := 0, 0, [];
    var cur: Option<Burst> := None;
    var prevEnd := 0;
    ghost var h: seq<Sample> := [];
    for k := 0 to |samples|
      invariant h == Filter(samples[..k], NotDuringSpeedtest())
      invariant Scanned(h, sent, lost, bursts, prevEnd, cur)
    {
      var sm := samples[k];
      assert samples[..k + 1] == samples[..k] + [sm];
      FilterStep(samples[..k], sm, NotDuringSpeedtest());
      if sm.duringSpeedtest {
        continue;
      }
      ghost var next := h + [sm];
      sent := sent + 1;
      lost, bursts, prevEnd, cur := Scan(sm, lost, bursts, prevEnd, cur, h, next);
      h := next;
    }
    assert samples[..|samples|] == samples;
    if cur.Some? {
      bursts := bursts + [cur.value];
    }
    medianGapMs := MedianGap(bursts);
  }

  // ----- the median gap -----

  function Gaps(bursts: seq<Burst>): seq<int> {
    if |bursts| == 0 then []
    else if bursts[|bursts| - 1].gapMs.Some? then Gaps(bursts[..|bursts| - 1]) + [bursts[|bursts| - 1].gapMs.value]
    else Gaps(bursts[..|bursts| - 1])
  }

  function Median(gaps: seq<int>): int {
    if |gaps| == 0 then 0 else Sort(gaps, Itself())[|gaps| / 2]
  }

  method MedianGap(bursts: seq<Burst>) returns (m: int)
    ensures m == Median(Gaps(bursts))
  {
    var gaps: seq<int> := [];
    for k := 0 to |bursts|
      invariant gaps == Gaps(bursts[..k])
    {
      assert bursts[..k + 1][..k] == bursts[..k];
      if bursts[k].gapMs.Some? {
        gaps := gaps + [bursts[k].gapMs.value];
      }
    }
    assert bursts[..|bursts|] == bursts;
    if |gaps| == 0 {
      return 0;
    }
    var a := new int[|gaps|](i requires 0 <= i < |gaps| => gaps[i]);
    assert a[..] == gaps;
    InsertionSort(a);
    m := a[a.Length / 2];
  }

  /** If everything from j on is larger than x and nothing before j is, Insert puts x at j. */
  lemma {:induction false} InsertAt(s: seq<int>, x: int, j: nat)
    requires j <= |s|
    requires forall k :: j <= k < |s| ==> x < s[k]
    requires j > 0 ==> s[j - 1] <= x
    ensures Insert(s, x, Itself()) == s[..j] + [x] + s[j..]
  {
    if j < |s| {
      InsertAt(s[..|s| - 1], x, j);
      assert s[..|s| - 1][..j] == s[..j];
      assert s[j..] == s[..|s| - 1][j..] + [s[|s| - 1]];
    }
  }

  lemma InsertedAt(s: seq<int>, x: int, j: nat, t: seq<int>)
    requires j <= |s| && |t| == |s| + 1 && t[j] == x
    requires forall k :: 0 <= k < j ==> t[k] == s[k]
    requires forall k :: j <= k < |s| ==> t[k + 1] == s[k] && x < s[k]
    requires j > 0 ==> s[j - 1] <= x
    ensures t == Insert(s, x, Itself())
  {
    InsertAt(s, x, j);
    forall k | j < k < |t| ensures t[k] == s[k - 1] {
      assert t[(k - 1) + 1] == s[k - 1];
    }
    assert t == s[..j] + [x] + s[j..];
  }

  /** The inner loop: swaps the i-th element down to its place among the sorted elements before it. */
  method SwapDown(a: array<int>, i: nat)
    requires i < a.Length
    modifies a
    ensures a[..i + 1] == Insert(old(a[..i]), old(a[i]), Itself())
    ensures a[i + 1..] == old(a[i + 1..])
  {
    ghost var s, x := a[..i], a[i];
    var j := i;
    while j > 0 && a[j] < a[j - 1]
      invariant 0 <= j <= i && a[j] == x
      invariant forall k :: 0 <= k < j ==> a[k] == s[k]
      invariant forall k :: j <= k < i ==> a[k + 1] == s[k] && x < s[k]
      invariant a[i + 1..] == old(a[i + 1..])
    {
      a[j], a[j - 1] := a[j - 1], a[j];
      j := j - 1;
    }
    InsertedAt(s, x, j, a[..i + 1]);
  }

  method InsertionSort(a: array<int>)
    modifies a
    ensures a[..] == Sort(old(a[..]), Itself())
  {
    ghost var given := a[..];
    assert given[..0] == [];
    if a.Length == 0 {
      return;
    }
    assert given[..1][..0] == [];
    for i := 1 to a.Length
      invariant a[..i] == Sort(given[..i], Itself())
      invariant a[i..] == given[i..]
    {
      assert a[i] == given[i..][0] && given[i + 1..] == given[i..][1..] && a[i + 1..] == a[i..][1..];
      SwapDown(a, i);
      assert given[..i + 1] == given[..i] + [given[i]];
      SortStep(given[..i], given[i], Itself());
    }
    assert given[..a.Length] == given && a[..a.Length] == a[..];
  }

  function Smaller(m: int): int -> bool {
    (x: int) => x < m
  }

  function Larger(m: int): int -> bool {
    (x: int) => x > m
  }

  /** The median is one of the gaps; at most half of the gaps are smaller, and at most the rest are larger. */
  lemma MedianSplits(gaps: seq<int>)
    requires |gaps| > 0
    ensures var m := Median(gaps);
      m in gaps && Count(gaps, Smaller(m)) <= |gaps| / 2 && Count(gaps, Larger(m)) <= |gaps| - 1 - |gaps| / 2
  {
    var sorted, m := Sort(gaps, Itself()), Median(gaps);
    SortKeepsMembers(gaps, Itself());
    assert sorted[|gaps| / 2] in sorted;
    CountSort(gaps, Itself(), Smaller(m));
    CountSort(gaps, Itself(), Larger(m));
    SortIsOrdered(gaps, Itself());
    MiddleSplits(sorted, |gaps| / 2);
  }

  lemma MiddleSplits(sorted: seq<int>, mid: nat)
    requires mid < |sorted| && Ordered(sorted, Itself())
    ensures Count(sorted, Smaller(sorted[mid])) <= mid && Count(sorted, Larger(sorted[mid])) <= |sorted| - 1 - mid
  {
    var key, m := Itself(), sorted[mid];
    forall k | 0 <= k < |sorted| ensures (k <= mid ==> sorted[k] <= m) && (k >= mid ==> sorted[k] >= m) {
      assert k < mid ==> key(sorted[k]) <= key(sorted[mid]);
      assert mid < k ==> key(sorted[mid]) <= key(sorted[k]);
    }
    CountUpTo(sorted, Smaller(m), mid);
    CountFrom(sorted, Larger(m), mid + 1);
  }

  function HasGap(): Burst -> bool {
    (b: Burst) => b.gapMs.Some?
  }

  function GapBelow(m: int): Burst -> bool {
    (b: Burst) => b.gapMs.Some? && b.gapMs.value < m
  }

  function GapAbove(m: int): Burst -> bool {
    (b: Burst) => b.gapMs.Some? && b.gapMs.value > m
  }

  lemma {:induction false} CountGaps(bursts: seq<Burst>, p: int -> bool, q: Burst -> bool)
    requires forall b :: q(b) <==> b.gapMs.Some? && p(b.gapMs.value)
    ensures Count(Gaps(bursts), p) == Count(bursts, q)
  {
    if |bursts| > 0 {
      var gaps, b := Gaps(bursts[..|bursts| - 1]), bursts[|bursts| - 1];
      CountGaps(bursts[..|bursts| - 1], p, q);
      if b.gapMs.Some? {
        assert (gaps + [b.gapMs.value])[..|gaps|] == gaps;
      }
    }
  }

  lemma {:induction false} GapsAreOfBursts(bursts: seq<Burst>)
    ensures |Gaps(bursts)| == Count(bursts, HasGap())
    ensures forall g :: g in Gaps(bursts) ==> exists b :: b in bursts && b.gapMs == Some(g)
  {
    if |bursts| > 0 {
      var front, b := bursts[..|bursts| - 1], bursts[|bursts| - 1];
      GapsAreOfBursts(front);
      assert bursts == front + [b];
    }
  }

  /**
   What is reported as the median gap: zero if no burst has a gap; otherwise the gap of some burst, such that at most
   half of the bursts with gaps have a smaller one and at most the rest a larger one.
   */
  lemma MedianOfBursts(bursts: seq<Burst>)
    ensures var m, n := Median(Gaps(bursts)), Count(bursts, HasGap());
      if n == 0 then m == 0
      else
        && (exists b :: b in bursts && b.gapMs == Some(m))
        && Count(bursts, GapBelow(m)) <= n / 2 && Count(bursts, GapAbove(m)) <= n - 1 - n / 2
  {
    var m := Median(Gaps(bursts));
    GapsAreOfBursts(bursts);
    CountGaps(bursts, Smaller(m), GapBelow(m));
    CountGaps(bursts, Larger(m), GapAbove(m));
    if |Gaps(bursts)| > 0 {
      MedianSplits(Gaps(bursts));
    }
  }

  // ----- bursts are the maximal runs of failures -----

  datatype Span = Span(first: int, end: int)

  /** A maximal run of failures that a success has ended. */
  ghost predicate IsClosedSpan(h: seq<Sample>, s: Span) {
    && 0 <= s.first < s.end < |h|
    && (forall k :: s.first <= k < s.end ==> !h[k].success)
    && (s.first > 0 ==> h[s.first - 1].success)
    && h[s.end].success
  }

  /** A maximal run of failures at the end of the history. */
  ghost predicate IsOpenSpan(h: seq<Sample>, s: Span) {
    && 0 <= s.first < s.end == |h|
    && (forall k :: s.first <= k < s.end ==> !h[k].success)
    && (s.first > 0 ==> h[s.first - 1].success)
  }

  ghost predicate Describes(h: seq<Sample>, b: Burst, s: Span) {
    0 <= s.first < s.end <= |h| && b.startedAt == h[s.first].ts && b.endedAt == h[s.end - 1].ts && b.lost == s.end - s.first
  }

  ghost function ClosedSpans(h: seq<Sample>): seq<Span> {
    if |h| == 0 then []
    else
      var front := h[..|h| - 1];
      if h[|h| - 1].success && Run(front, false) > 0 then ClosedSpans(front) + [Span(|front| - Run(front, false), |front|)]
      else ClosedSpans(front)
  }

  lemma OpenSpanIsTheRun(h: seq<Sample>, s: Span)
    ensures IsOpenSpan(h, s) <==> Run(h, false) > 0 && s == Span(|h| - Run(h, false), |h|)
  {
    RunIsMaximal(h, false);
  }

  lemma ClosedSpanStep(h: seq<Sample>, s: Span)
    requires |h| > 0
    ensures var front := h[..|h| - 1];
      IsClosedSpan(h, s) <==> IsClosedSpan(front, s) || (h[|h| - 1].success && IsOpenSpan(front, s))
  {
  }

  /** The closed bursts are exactly the maximal runs of failures that were ended by a success, each once and in order. */
  lemma {:induction false} ClosedBurstsAreSpans(h: seq<Sample>)
    ensures |ClosedSpans(h)| == |ClosedBursts(h)|
    ensures forall s :: s in ClosedSpans(h) <==> IsClosedSpan(h, s)
    ensures forall k :: 0 <= k < |ClosedBursts(h)| ==> Describes(h, ClosedBursts(h)[k], ClosedSpans(h)[k])
    ensures forall k, l :: 0 <= k < l < |ClosedSpans(h)| ==> ClosedSpans(h)[k].end < ClosedSpans(h)[l].first
  {
    if |h| > 0 {
      var front := h[..|h| - 1];
      ClosedBurstsAreSpans(front);
      RunIsMaximal(front, false);
      var spans := ClosedSpans(front);
      forall s ensures s in ClosedSpans(h) <==> IsClosedSpan(h, s) {
        ClosedSpanStep(h, s);
        OpenSpanIsTheRun(front, s);
      }
      forall k | 0 <= k < |spans| ensures spans[k].end < |front| && (Run(front, false) > 0 ==> spans[k].end < |front| - Run(front, false)) {
        assert spans[k] in spans;
      }
      forall k | 0 <= k < |spans| ensures Describes(h, ClosedBursts(front)[k], spans[k]) {
        assert Describes(front, ClosedBursts(front)[k], spans[k]);
      }
    }
  }

  /** The open burst is the maximal run of failures at the end. */
  lemma OpenBurstIsSpan(h: seq<Sample>)
    requires Run(h, false) > 0
    ensures var s := Span(|h| - Run(h, false), |h|); IsOpenSpan(h, s) && Describes(h, OpenBurst(h), s)
  {
    OpenSpanIsTheRun(h, Span(|h| - Run(h, false), |h|));
  }

  /**
   The gap of a burst is the time from the end of the burst before it to its own start. The first burst has none, and
   neither has one whose predecessor ended at time zero or before.
   */
  ghost predicate GapsAreTimesBetween(bursts: seq<Burst>) {
    forall k :: 0 <= k < |bursts| ==>
      bursts[k].gapMs ==
        if k > 0 && bursts[k - 1].endedAt > 0 then Some(bursts[k].startedAt - bursts[k - 1].endedAt) else None
  }

  lemma {:induction false} GapsBetweenBursts(h: seq<Sample>)
    ensures GapsAreTimesBetween(ClosedBursts(h)) && GapsAreTimesBetween(Bursts(h))
  {
    if |h| > 0 {
      GapsBetweenBursts(h[..|h| - 1]);
    }
  }

  function LostOf(): Burst -> int {
    (b: Burst) => b.lost
  }

  /** Every failure is counted in exactly one burst. */
  lemma {:induction false} BurstsHoldAllLosses(h: seq<Sample>)
    ensures Sum(Bursts(h), LostOf()) == Count(h, Failure())
    ensures Sum(ClosedBursts(h), LostOf()) + Run(h, false) == Count(h, Failure())
  {
    if |h| > 0 {
      var front := h[..|h| - 1];
      BurstsHoldAllLosses(front);
      HistoryStep(front, h[|h| - 1], h);
      if h[|h| - 1].success && Run(front, false) > 0 {
        SumStep(ClosedBursts(front), OpenBurst(front), LostOf());
      }
    }
    if Run(h, false) > 0 {
      SumStep(ClosedBursts(h), OpenBurst(h), LostOf());
    }
  }

  // ----- agreement with the outage machine -----

  /** The k-th burst of the history begins at the given time and lost enough pings to take the target down. */
  ghost predicate LongBurst(c: Thresholds, bursts: seq<Burst>, at: int) {
    exists k :: 0 <= k < |bursts| && bursts[k].startedAt == at && bursts[k].lost >= Max(c.failN, 1)
  }

  ghost predicate DownsAreBursts(c: Thresholds, trs: seq<Transition>, bursts: seq<Burst>) {
    forall i :: 0 <= i < |trs| && trs[i].kind == WentDown ==> LongBurst(c, bursts, trs[i].at)
  }

  /** Every outage the machine reports for the samples begins where one of the long bursts of the same samples begins. */
  lemma {:induction false} OutagesBeginWithBursts(c: Thresholds, h: seq<Sample>)
    requires AllCount(h)
    ensures DownsAreBursts(c, Transitions(c, Unknown, h), Bursts(h))
  {
    if |h| > 0 {
      var front, last := h[..|h| - 1], h[|h| - 1];
      OutagesBeginWithBursts(c, front);
      HistoryStep(front, last, h);
      forall at | LongBurst(c, Bursts(front), at) ensures LongBurst(c, Bursts(h), at) {
        LongBurstStays(c, front, last, h, at);
      }
      CountersAreRuns(c, Unknown, front);
      var tr := Next(c, After(c, Unknown, front), last).1;
      if tr.Some? && tr.value.kind == WentDown {
        assert Bursts(h)[|ClosedBursts(h)|] == OpenBurst(h);
        assert LongBurst(c, Bursts(h), tr.value.at);
      }
    }
  }

  /** The same for samples as they are stored, with those taken during speed tests among them. */
  lemma StoredOutagesBeginWithBursts(c: Thresholds, samples: seq<Sample>)
    ensures DownsAreBursts(c, Transitions(c, Unknown, samples), Bursts(Filter(samples, NotDuringSpeedtest())))
  {
    SpeedtestSamplesVanish(c, Unknown, samples);
    FilteredAllCount(samples);
    OutagesBeginWithBursts(c, Filter(samples, NotDuringSpeedtest()));
  }

  lemma {:induction false} FilteredAllCount(samples: seq<Sample>)
    ensures AllCount(Filter(samples, NotDuringSpeedtest()))
  {
    if |samples| > 0 {
      FilteredAllCount(samples[..|samples| - 1]);
      var f := Filter(samples[..|samples| - 1], NotDuringSpeedtest());
      assert (f + [samples[|samples| - 1]])[..|f|] == f;
    }
  }

  lemma LongBurstStays(c: Thresholds, h: seq<Sample>, s: Sample, next: seq<Sample>, at: int)
    requires next == h + [s] && LongBurst(c, Bursts(h), at)
    ensures LongBurst(c, Bursts(next), at)
  {
    HistoryStep(h, s, next);
    var k :| 0 <= k < |Bursts(h)| && Bursts(h)[k].startedAt == at && Bursts(h)[k].lost >= Max(c.failN, 1);
    if k < |ClosedBursts(h)| {
      assert Bursts(next)[k] == ClosedBursts(h)[k];
    } else {
      assert Bursts(next)[k].startedAt == at;
    }
  }

  /** Conversely a long burst always leaves the target Down, so none of them escapes the machine. */
  lemma {:induction false} LongBurstIsDown(c: Thresholds, initial: State, h: seq<Sample>)
    requires AllCount(h) && Run(h, false) >= Max(c.failN, 1)
    ensures After(c, initial, h).state == Down
  {
    var front := h[..|h| - 1];
    CountersAreRuns(c, initial, front);
    if Run(front, false) >= Max(c.failN, 1) {
      LongBurstIsDown(c, initial, front);
    }
  }
}
