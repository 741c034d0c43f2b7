/**
 What the call probe should report about a sequence of finalized packets. The log lists outcomes in the order of
 finalization, with a mark wherever a restart flushed the current loss run.
 */
module ProbeLog {
  import opened Common
  import opened CallQuality
  import opened Sorting

  const SECOND := 1_000_000_000
  const MILLI := 1_000_000
  const MIN_FREEZE_RUN := 3

  /** What a prober is set up with: its reflector, the logarithm, and the time between two packets. */
  datatype Setup = Setup(reflector: int, ln: real -> real, interval: int)

  /** Each entry carries the speed-test flag as it is read when the entry is made. */
  datatype Outcome =
    | Received(seqNo: int, send: int, rtt: int, during: bool)
    | Lost(seqNo: int, send: int, during: bool)
    | Flushed(during: bool)

  function SendSecond(o: Outcome): int
    requires !o.Flushed?
  {
    o.send / SECOND
  }

  /** Send times do not decrease, and the clock is past the first second of the epoch. */
  ghost predicate InOrder(log: seq<Outcome>) {
    |log| > 0 ==>
      && InOrder(log[..|log| - 1])
      && (log[|log| - 1].Flushed? || (SECOND <= log[|log| - 1].send && LastSend(log[..|log| - 1]) <= log[|log| - 1].send))
  }

  function LastSend(log: seq<Outcome>): int {
    if |log| == 0 then 0
    else if log[|log| - 1].Flushed? then LastSend(log[..|log| - 1])
    else log[|log| - 1].send
  }

  /** The second of the last packet; zero before the first one. */
  function LastSecond(log: seq<Outcome>): int {
    LastSend(log) / SECOND
  }

  /** The number of packets. */
  function Packets(log: seq<Outcome>): nat {
    if |log| == 0 then 0 else Packets(log[..|log| - 1]) + if log[|log| - 1].Flushed? then 0 else 1
  }

  function Losses(log: seq<Outcome>): nat {
    if |log| == 0 then 0 else Losses(log[..|log| - 1]) + if log[|log| - 1].Lost? then 1 else 0
  }

  /** Packets are numbered from 1, without gaps or repeats. */
  ghost predicate Gapless(log: seq<Outcome>) {
    |log| > 0 ==>
      && Gapless(log[..|log| - 1])
      && (log[|log| - 1].Flushed? || log[|log| - 1].seqNo == Packets(log))
  }

  // ----- per-second counters -----

  /** The counters of a second: packets, losses, and the sum and number of round-trip times. */
  datatype Counter = Sent | LostOnes | RttSumUs | RttN

  function OfOutcome(c: Counter, o: Outcome, sec: int): int {
    if o.Flushed? || SendSecond(o) != sec then 0
    else match c
      case Sent => 1
      case LostOnes => if o.Lost? then 1 else 0
      case RttSumUs => if o.Received? then TruncDiv(o.rtt, 1000) else 0
      case RttN => if o.Received? then 1 else 0
  }

  /** A counter over all packets sent in one second. */
  function Tally(c: Counter, log: seq<Outcome>, sec: int): int {
    if |log| == 0 then 0 else Tally(c, log[..|log| - 1], sec) + OfOutcome(c, log[|log| - 1], sec)
  }

  datatype Slot = Slot(sent: int, lost: int, rttSumUs: int, rttN: int)

  function SlotOf(log: seq<Outcome>, sec: int): Slot {
    Slot(Tally(Sent, log, sec), Tally(LostOnes, log, sec), Tally(RttSumUs, log, sec), Tally(RttN, log, sec))
  }

  /** The latest second of the log that falls on slot i of the ring of ten; zero if there is none. */
  function Latest(log: seq<Outcome>, i: int): int {
    if |log| == 0 then 0
    else
      var o := log[|log| - 1];
      if !o.Flushed? && SendSecond(o) % 10 == i then SendSecond(o) else Latest(log[..|log| - 1], i)
  }

  /** The sum of the first n slots of the ring. */
  function RingSum(c: Counter, log: seq<Outcome>, n: nat): int {
    if n == 0 then 0 else RingSum(c, log, n - 1) + Tally(c, log, Latest(log, n - 1))
  }

  /** The sum over the seconds [lo, hi). */
  function SecondsSum(c: Counter, log: seq<Outcome>, lo: int, hi: int): int
    decreases hi - lo
  {
    if lo >= hi then 0 else SecondsSum(c, log, lo, hi - 1) + Tally(c, log, hi - 1)
  }

  lemma {:induction false} SecondsSumSplit(c: Counter, log: seq<Outcome>, lo: int, mid: int, hi: int)
    requires lo <= mid <= hi
    ensures SecondsSum(c, log, lo, hi) == SecondsSum(c, log, lo, mid) + SecondsSum(c, log, mid, hi)
    decreases hi - mid
  {
    if mid < hi {
      SecondsSumSplit(c, log, lo, mid, hi - 1);
    }
  }

  lemma {:induction false} LatestIsInLog(log: seq<Outcome>, i: int)
    requires InOrder(log)
    ensures 0 <= Latest(log, i) <= LastSecond(log)
    ensures Latest(log, i) != 0 ==> Latest(log, i) % 10 == i
    ensures LastSend(log) != 0 && LastSecond(log) % 10 == i ==> Latest(log, i) == LastSecond(log)
    ensures LastSend(log) != 0 ==> LastSend(log) >= SECOND
  {
    if |log| > 0 {
      LatestIsInLog(log[..|log| - 1], i);
    }
  }

  /** A second that is later than the latest one on its slot holds no packet. */
  lemma {:induction false} LaterIsEmpty(c: Counter, log: seq<Outcome>, sec: int)
    requires InOrder(log) && Latest(log, sec % 10) < sec
    ensures Tally(c, log, sec) == 0
  {
    if |log| > 0 {
      LatestIsInLog(log[..|log| - 1], sec % 10);
      LatestIsInLog(log, sec % 10);
      LaterIsEmpty(c, log[..|log| - 1], sec);
    }
  }

  /** Second zero and earlier seconds hold no packet. */
  lemma {:induction false} NoEarlySeconds(c: Counter, log: seq<Outcome>, sec: int)
    requires InOrder(log) && sec <= 0
    ensures Tally(c, log, sec) == 0
  {
    if |log| > 0 {
      NoEarlySeconds(c, log[..|log| - 1], sec);
    }
  }

  lemma {:induction false} CountersAgree(log: seq<Outcome>, sec: int)
    ensures 0 <= Tally(LostOnes, log, sec) <= Tally(Sent, log, sec)
    ensures Tally(RttN, log, sec) == Tally(Sent, log, sec) - Tally(LostOnes, log, sec)
  {
    if |log| > 0 {
      CountersAgree(log[..|log| - 1], sec);
    }
  }

  /** The packets of a second. */
  function InSecond(sec: int): Outcome -> bool {
    (o: Outcome) => !o.Flushed? && o.send / 1_000_000_000 == sec
  }

  function LostInSecond(sec: int): Outcome -> bool {
    (o: Outcome) => o.Lost? && o.send / 1_000_000_000 == sec
  }

  function ReceivedInSecond(sec: int): Outcome -> bool {
    (o: Outcome) => o.Received? && o.send / 1_000_000_000 == sec
  }

  /** The round-trip time in whole microseconds, of the packets of a second that were received. */
  function RttUs(sec: int): Outcome -> int {
    (o: Outcome) => if o.Received? && o.send / 1_000_000_000 == sec then TruncDiv(o.rtt, 1000) else 0
  }

  /** The counters of a second are counts and sums over its packets. */
  lemma {:induction false} TallyMeans(log: seq<Outcome>, sec: int)
    ensures Tally(Sent, log, sec) == Count(log, InSecond(sec))
    ensures Tally(LostOnes, log, sec) == Count(log, LostInSecond(sec))
    ensures Tally(RttN, log, sec) == Count(log, ReceivedInSecond(sec))
    ensures Tally(RttSumUs, log, sec) == Sum(log, RttUs(sec))
  {
    if |log| > 0 {
      TallyMeans(log[..|log| - 1], sec);
    }
  }

  // ----- the rolling window -----

  /** The second of the last ten that falls on slot i. */
  function Current(last: int, i: int): int {
    last - (last - i) % 10
  }

  /** Slot i still holds a second that is ten or more seconds old. */
  predicate Stale(log: seq<Outcome>, i: int) {
    0 < Latest(log, i) <= LastSecond(log) - 10
  }

  function StaleSum(c: Counter, log: seq<Outcome>, n: nat): int {
    if n == 0 then 0
    else StaleSum(c, log, n - 1) + if Stale(log, n - 1) then Tally(c, log, Latest(log, n - 1)) else 0
  }

  function CurrentSum(c: Counter, log: seq<Outcome>, n: nat): int {
    if n == 0 then 0 else CurrentSum(c, log, n - 1) + Tally(c, log, Current(LastSecond(log), n - 1))
  }

  lemma SlotIsCurrentOrStale(c: Counter, log: seq<Outcome>, i: int)
    requires InOrder(log) && LastSend(log) != 0 && 0 <= i < 10
    ensures Tally(c, log, Latest(log, i)) ==
      Tally(c, log, Current(LastSecond(log), i)) + if Stale(log, i) then Tally(c, log, Latest(log, i)) else 0
  {
    LatestIsInLog(log, i);
    var cur := Current(LastSecond(log), i);
    assert cur % 10 == i;
    if Latest(log, i) < cur {
      LaterIsEmpty(c, log, cur);
    }
    if Latest(log, i) == 0 {
      NoEarlySeconds(c, log, 0);
      if cur <= 0 {
        NoEarlySeconds(c, log, cur);
      }
    }
  }

  lemma {:induction false} RingIsCurrentAndStale(c: Counter, log: seq<Outcome>, n: nat)
    requires InOrder(log) && LastSend(log) != 0 && n <= 10
    ensures RingSum(c, log, n) == CurrentSum(c, log, n) + StaleSum(c, log, n)
  {
    if n > 0 {
      RingIsCurrentAndStale(c, log, n - 1);
      SlotIsCurrentOrStale(c, log, n - 1);
    }
  }

  lemma CurrentIs(last: int, base: int, i: int)
    requires base == last - last % 10 && 0 <= i < 10
    ensures Current(last, i) == if base + i <= last then base + i else base - 10 + i
  {
  }

  /** The part of the last ten seconds that the first n slots hold, if base is the last multiple of ten. */
  function Rotated(c: Counter, log: seq<Outcome>, last: int, base: int, n: nat): int {
    if base + n <= last + 1 then SecondsSum(c, log, base, base + n)
    else SecondsSum(c, log, base, last + 1) + SecondsSum(c, log, last - 9, base - 10 + n)
  }

  lemma RotatedStep(c: Counter, log: seq<Outcome>, last: int, base: int, n: nat)
    requires base <= last <= base + 9 && n < 10
    ensures Rotated(c, log, last, base, n + 1) ==
      Rotated(c, log, last, base, n) + Tally(c, log, if base + n <= last then base + n else base - 10 + n)
  {
  }

  /** Read from slot 0, the ring holds the last ten seconds rotated. */
  lemma {:induction false} CurrentSumRotates(c: Counter, log: seq<Outcome>, last: int, base: int, n: nat)
    requires n <= 10 && last == LastSecond(log) && base == last - last % 10
    ensures CurrentSum(c, log, n) == Rotated(c, log, last, base, n)
  {
    if n > 0 {
      CurrentSumRotates(c, log, last, base, n - 1);
      CurrentIs(last, base, n - 1);
      RotatedStep(c, log, last, base, n - 1);
    }
  }

  /** The ten current seconds add up to the last ten seconds. */
  lemma CurrentSumIsLastTen(c: Counter, log: seq<Outcome>, last: int)
    requires last == LastSecond(log)
    ensures CurrentSum(c, log, 10) == SecondsSum(c, log, last - 9, last + 1)
  {
    var base := last - last % 10;
    assert base <= last <= base + 9;
    CurrentSumRotates(c, log, last, base, 10);
    SecondsSumSplit(c, log, last - 9, base, last + 1);
  }

  /**
   The window that the statistics are computed over: exactly the last ten seconds, plus whatever slots still hold
   older seconds because nothing was finalized on them since.
   */
  lemma WindowIsLastTenAndStale(c: Counter, log: seq<Outcome>)
    requires InOrder(log) && LastSend(log) != 0
    ensures RingSum(c, log, 10) == SecondsSum(c, log, LastSecond(log) - 9, LastSecond(log) + 1) + StaleSum(c, log, 10)
  {
    RingIsCurrentAndStale(c, log, 10);
    CurrentSumIsLastTen(c, log, LastSecond(log));
  }

  ghost predicate NoStaleSlot(log: seq<Outcome>, n: nat) {
    forall i :: 0 <= i < n ==> !Stale(log, i)
  }

  lemma {:induction false} LatestHoldsPackets(log: seq<Outcome>, i: int)
    requires InOrder(log) && Latest(log, i) != 0
    ensures Tally(Sent, log, Latest(log, i)) >= 1
  {
    var o := log[|log| - 1];
    CountersAgree(log[..|log| - 1], Latest(log, i));
    if !(!o.Flushed? && SendSecond(o) % 10 == i) {
      LatestHoldsPackets(log[..|log| - 1], i);
    }
  }

  lemma {:induction false} StaleSumIsEmpty(c: Counter, log: seq<Outcome>, n: nat)
    requires InOrder(log) && n <= 10
    ensures StaleSum(Sent, log, n) >= 0
    ensures StaleSum(Sent, log, n) == 0 <==> NoStaleSlot(log, n)
    ensures NoStaleSlot(log, n) ==> StaleSum(c, log, n) == 0
  {
    if n > 0 {
      StaleSumIsEmpty(c, log, n - 1);
      if Stale(log, n - 1) {
        LatestHoldsPackets(log, n - 1);
      }
    }
  }

  /** All counters of the window are those of exactly the last ten seconds if and only if no slot is stale. */
  lemma WindowExact(log: seq<Outcome>)
    requires InOrder(log) && LastSend(log) != 0
    ensures (forall c :: RingSum(c, log, 10) == SecondsSum(c, log, LastSecond(log) - 9, LastSecond(log) + 1)) <==> NoStaleSlot(log, 10)
  {
    forall c
      ensures RingSum(c, log, 10) == SecondsSum(c, log, LastSecond(log) - 9, LastSecond(log) + 1) + StaleSum(c, log, 10)
      ensures NoStaleSlot(log, 10) ==> StaleSum(c, log, 10) == 0
    {
      WindowIsLastTenAndStale(c, log);
      StaleSumIsEmpty(c, log, 10);
    }
    StaleSumIsEmpty(Sent, log, 10);
    assert RingSum(Sent, log, 10) == SecondsSum(Sent, log, LastSecond(log) - 9, LastSecond(log) + 1) + StaleSum(Sent, log, 10);
  }

  /** The counters of a log of two packets that were lost. */
  lemma TwoLosses(log: seq<Outcome>, sec: int)
    requires |log| == 2 && log[0].Lost? && log[1].Lost?
    ensures Tally(Sent, log, sec) == (if SendSecond(log[0]) == sec then 1 else 0) + (if SendSecond(log[1]) == sec then 1 else 0)
  {
    var front := log[..1];
    assert Tally(Sent, front, sec) == Tally(Sent, front[..0], sec) + OfOutcome(Sent, log[0], sec);
  }

  lemma LatestOfTwo(log: seq<Outcome>, i: int)
    requires |log| == 2 && log[0].Lost? && log[1].Lost?
    ensures Latest(log, i) ==
      if SendSecond(log[1]) % 10 == i then SendSecond(log[1]) else if SendSecond(log[0]) % 10 == i then SendSecond(log[0]) else 0
  {
    var front := log[..1];
    assert Latest(front, i) == if SendSecond(log[0]) % 10 == i then SendSecond(log[0]) else Latest(front[..0], i);
  }

  lemma {:induction false} OneLossIn(log: seq<Outcome>, lo: int, hi: int)
    requires |log| == 2 && log[0].Lost? && log[1].Lost? && SendSecond(log[0]) == 1 && SendSecond(log[1]) == 12 && 1 < lo <= hi
    ensures SecondsSum(Sent, log, lo, hi) == if lo <= 12 < hi then 1 else 0
    decreases hi - lo
  {
    if lo < hi {
      OneLossIn(log, lo, hi - 1);
      TwoLosses(log, hi - 1);
    }
  }

  lemma {:induction false} OneStale(log: seq<Outcome>, n: nat)
    requires |log| == 2 && log[0].Lost? && log[1].Lost? && SendSecond(log[0]) == 1 && SendSecond(log[1]) == 12 && n <= 10
    ensures StaleSum(Sent, log, n) == if n >= 2 then 1 else 0
  {
    if n > 0 {
      OneStale(log, n - 1);
      LatestOfTwo(log, n - 1);
      TwoLosses(log, 1);
    }
  }

  /** Packets sent at seconds 1 and 12: slot 1 is stale, and the ring holds both although only one is of the last ten seconds. */
  lemma OldSecondInWindow(log: seq<Outcome>)
    requires |log| == 2 && log[0].Lost? && log[0].send == SECOND && log[1].Lost? && log[1].send == 12 * SECOND
    ensures Stale(log, 1) && RingSum(Sent, log, 10) == 2
    ensures SecondsSum(Sent, log, LastSecond(log) - 9, LastSecond(log) + 1) == 1
  {
    assert log[..1] == [log[0]] && log[..1][..0] == [];
    LatestOfTwo(log, 1);
    OneLossIn(log, 3, 13);
    OneStale(log, 10);
    WindowIsLastTenAndStale(Sent, log);
  }

  /** No packet is sent more than one second after the one before it. */
  ghost predicate Steady(log: seq<Outcome>) {
    |log| > 0 ==>
      var front, o := log[..|log| - 1], log[|log| - 1];
      Steady(front) && (o.Flushed? || LastSend(front) == 0 || SendSecond(o) <= LastSecond(front) + 1)
  }

  /** A steady stream leaves no slot stale. */
  lemma {:induction false} SteadyIsNotStale(log: seq<Outcome>, i: int)
    requires InOrder(log) && Steady(log) && 0 <= i < 10
    ensures !Stale(log, i)
  {
    if |log| > 0 {
      var front := log[..|log| - 1];
      SteadyIsNotStale(front, i);
      LatestIsInLog(front, i);
      LatestIsInLog(log, i);
      if LastSend(front) == 0 {
        NothingLatest(front, i);
      }
    }
  }

  lemma {:induction false} NothingLatest(log: seq<Outcome>, i: int)
    requires InOrder(log) && LastSend(log) == 0
    ensures Latest(log, i) == 0 && Packets(log) == 0 && Losses(log) == 0
  {
    if |log| > 0 {
      NothingLatest(log[..|log| - 1], i);
    }
  }

  // ----- jitter -----

  /** The round-trip time of the last received packet; zero before the first one. */
  function LastRtt(log: seq<Outcome>): int {
    if |log| == 0 then 0
    else if log[|log| - 1].Received? then log[|log| - 1].rtt
    else LastRtt(log[..|log| - 1])
  }

  /** The interarrival jitter estimate of section 6.4.1 of RFC 3550; it starts once a positive round-trip time is known. */
  function Jitter(log: seq<Outcome>): real {
    if |log| == 0 then 0.0
    else
      var front, o := log[..|log| - 1], log[|log| - 1];
      if o.Received? && LastRtt(front) > 0 then
        Jitter(front) + (Abs(o.rtt - LastRtt(front)) as real - Jitter(front)) / 16.0
      else Jitter(front)
  }

  /** The largest change between consecutive round-trip times. */
  function LargestChange(log: seq<Outcome>): nat {
    if |log| == 0 then 0
    else
      var front, o := log[..|log| - 1], log[|log| - 1];
      if o.Received? && LastRtt(front) > 0 then Max(LargestChange(front), Abs(o.rtt - LastRtt(front)))
      else LargestChange(front)
  }

  /** The estimate stays between zero and the largest change seen. */
  lemma {:induction false} JitterIsBounded(log: seq<Outcome>)
    ensures 0.0 <= Jitter(log) <= LargestChange(log) as real
  {
    if |log| > 0 {
      JitterIsBounded(log[..|log| - 1]);
    }
  }

  /** The round-trip times of the received packets, in order. */
  function ReceivedRtts(log: seq<Outcome>): seq<int> {
    if |log| == 0 then []
    else if log[|log| - 1].Received? then ReceivedRtts(log[..|log| - 1]) + [log[|log| - 1].rtt]
    else ReceivedRtts(log[..|log| - 1])
  }

  /** How much each differs from the one before it, if that was positive. */
  function Changes(rtts: seq<int>): seq<nat> {
    if |rtts| < 2 then []
    else
      var before, a, b := Changes(rtts[..|rtts| - 1]), rtts[|rtts| - 2], rtts[|rtts| - 1];
      if a <= 0 then before else before + [if a < b then b - a else a - b]
  }

  /** The share that a change has in the estimate when n more have been seen since. */
  function Share(n: nat): real {
    if n == 0 then 1.0 / 16.0 else 15.0 / 16.0 * Share(n - 1)
  }

  function Weighted(changes: seq<nat>): real {
    if |changes| == 0 then 0.0 else Share(|changes| - 1) * changes[0] as real + Weighted(changes[1..])
  }

  lemma {:induction false} WeightedStep(changes: seq<nat>, d: nat)
    ensures Weighted(changes + [d]) == 15.0 / 16.0 * Weighted(changes) + d as real / 16.0
  {
    if |changes| == 0 {
      assert [d][1..] == [];
    } else {
      assert (changes + [d])[1..] == changes[1..] + [d];
      WeightedStep(changes[1..], d);
      assert Share(|changes|) * changes[0] as real == 15.0 / 16.0 * (Share(|changes| - 1) * changes[0] as real);
    }
  }

  lemma {:induction false} LastRttIsLast(log: seq<Outcome>)
    ensures var rtts := ReceivedRtts(log); LastRtt(log) == if |rtts| == 0 then 0 else rtts[|rtts| - 1]
  {
    if |log| > 0 {
      LastRttIsLast(log[..|log| - 1]);
    }
  }

  /** The estimate is the weighted sum of all changes, each with 15/16 of the share of the next, and the last with 1/16. */
  lemma {:induction false} JitterIsWeighted(log: seq<Outcome>)
    ensures Jitter(log) == Weighted(Changes(ReceivedRtts(log)))
  {
    if |log| > 0 {
      var front, o := log[..|log| - 1], log[|log| - 1];
      var rtts := ReceivedRtts(front);
      JitterIsWeighted(front);
      LastRttIsLast(front);
      if o.Received? {
        assert (rtts + [o.rtt])[..|rtts|] == rtts;
        if LastRtt(front) > 0 {
          WeightedStep(Changes(rtts), if LastRtt(front) < o.rtt then o.rtt - LastRtt(front) else LastRtt(front) - o.rtt);
        }
      }
    }
  }

  // ----- emitted seconds -----

  datatype SecondBucket = SecondBucket(reflector: int, ts: int, sent: int, lost: int, rttAvgUs: int, jitterUs: int, mosx100: int, during: bool)

  datatype WindowStats = WindowStats(lossPct: real, rttMs: real, jitterMs: real)

  function StatsOf(window: Slot, jitterNs: real): WindowStats {
    WindowStats(
      if window.sent > 0 then 100.0 * window.lost as real / window.sent as real else 0.0,
      if window.rttN > 0 then TruncDiv(window.rttSumUs, window.rttN) as real / 1000.0 else 0.0,
      jitterNs / 1000000.0)
  }

  function WindowOf(log: seq<Outcome>): Slot {
    Slot(RingSum(Sent, log, 10), RingSum(LostOnes, log, 10), RingSum(RttSumUs, log, 10), RingSum(RttN, log, 10))
  }

  /** The bucket of a completed second: its own counters, and a score computed over the window as it then is. */
  function Bucket(p: Setup, sec: int, own: Slot, window: Slot, jitterNs: real, during: bool): SecondBucket {
    var st := StatsOf(window, jitterNs);
    SecondBucket(p.reflector, sec * 1000, own.sent, own.lost,
                 if own.rttN > 0 then TruncDiv(own.rttSumUs, own.rttN) else 0,
                 (jitterNs / 1000.0).Floor,
                 (Mos(p.ln, st.lossPct, st.rttMs, st.jitterMs) * 100.0).Floor, during)
  }

  /** The packet o opens a new second, which completes the one before. */
  predicate Completes(front: seq<Outcome>, o: Outcome) {
    !o.Flushed? && LastSend(front) != 0 && SendSecond(o) != LastSecond(front)
  }

  function Emitted(p: Setup, log: seq<Outcome>): seq<SecondBucket> {
    if |log| == 0 then []
    else
      var front, o := log[..|log| - 1], log[|log| - 1];
      if Completes(front, o) then
        Emitted(p, front) + [Bucket(p, LastSecond(front), SlotOf(front, LastSecond(front)), WindowOf(front), Jitter(log), o.during)]
      else Emitted(p, front)
  }

  ghost predicate Ascending(bs: seq<SecondBucket>, below: int) {
    |bs| > 0 ==> bs[|bs| - 1].ts < below && Ascending(bs[..|bs| - 1], bs[|bs| - 1].ts)
  }

  lemma {:induction false} AscendingBelow(bs: seq<SecondBucket>, below: int, more: int)
    requires Ascending(bs, below) && below <= more
    ensures Ascending(bs, more)
  {
  }

  /** Each second is emitted at most once, in strictly increasing order, and before the second that is still active. */
  lemma {:induction false} EmittedAscends(p: Setup, log: seq<Outcome>)
    requires InOrder(log)
    ensures Ascending(Emitted(p, log), LastSecond(log) * 1000)
  {
    if |log| > 0 {
      var front, o := log[..|log| - 1], log[|log| - 1];
      EmittedAscends(p, front);
      var bs := Emitted(p, front);
      AscendingBelow(bs, LastSecond(front) * 1000, LastSecond(log) * 1000);
      if Completes(front, o) {
        assert Emitted(p, log)[..|bs|] == bs;
      }
    }
  }

  ghost predicate IsEmitted(bs: seq<SecondBucket>, sec: int, sent: int, lost: int) {
    exists k :: 0 <= k < |bs| && bs[k].ts == sec * 1000 && bs[k].sent == sent && bs[k].lost == lost
  }

  /** Every second before the active one that holds a packet has been emitted, with its final counters. */
  lemma {:induction false} EmittedIsComplete(p: Setup, log: seq<Outcome>, sec: int)
    requires InOrder(log) && 0 < sec < LastSecond(log) && Tally(Sent, log, sec) > 0
    ensures IsEmitted(Emitted(p, log), sec, Tally(Sent, log, sec), Tally(LostOnes, log, sec))
  {
    var front, o := log[..|log| - 1], log[|log| - 1];
    var bs := Emitted(p, front);
    if sec < LastSecond(front) {
      EmittedIsComplete(p, front, sec);
      var k :| 0 <= k < |bs| && bs[k].ts == sec * 1000 && bs[k].sent == Tally(Sent, front, sec) && bs[k].lost == Tally(LostOnes, front, sec);
      assert Emitted(p, log)[k] == bs[k];
    } else if sec == LastSecond(front) {
      assert Completes(front, o);
      assert Emitted(p, log)[|bs|].ts == sec * 1000;
    } else {
      LatestIsInLog(front, sec % 10);
      LaterIsEmpty(Sent, front, sec);
    }
  }

  /** Packet entry next opens a new second: the packet before it, with only flushes in between, was sent in another one. */
  datatype Turn = Turn(last: int, next: int)

  ghost predicate OpensSecond(log: seq<Outcome>, t: Turn) {
    && 0 <= t.last < t.next < |log| && !log[t.last].Flushed? && !log[t.next].Flushed?
    && (forall i :: t.last < i < t.next ==> log[i].Flushed?)
    && log[t.last].send / 1_000_000_000 != log[t.next].send / 1_000_000_000
  }

  /** A hundred times the score of a window: of its percentage of loss, its mean round trip in ms, and the jitter in ms. */
  ghost predicate IsScore(ln: real -> real, window: Slot, jitterNs: real, score: int) {
    var loss := if window.sent > 0 then 100.0 * window.lost as real / window.sent as real else 0.0;
    var rtt := if window.rttN > 0 then TruncDiv(window.rttSumUs, window.rttN) as real / 1000.0 else 0.0;
    score == (Mos(ln, loss, rtt, jitterNs / 1000000.0) * 100.0).Floor
  }

  /**
   The report of the second of packet last, which ends when packet next opens another one: what the log so far holds of
   it, the jitter with packet next, and a score over the ring as it is then.
   */
  ghost predicate Reports(p: Setup, front: seq<Outcome>, last: Outcome, next: Outcome, b: SecondBucket)
    requires !last.Flushed?
  {
    var sec, jitter := last.send / 1_000_000_000, Jitter(front + [next]);
    var own := Count(front, ReceivedInSecond(sec));
    && b.reflector == p.reflector && b.ts == sec * 1000 && b.during == next.during
    && b.sent == Count(front, InSecond(sec)) && b.lost == Count(front, LostInSecond(sec))
    && b.rttAvgUs == (if own > 0 then TruncDiv(Sum(front, RttUs(sec)), own) else 0)
    && b.jitterUs == (jitter / 1000.0).Floor
    && IsScore(p.ln, Slot(RingSum(Sent, front, 10), RingSum(LostOnes, front, 10), RingSum(RttSumUs, front, 10), RingSum(RttN, front, 10)),
               jitter, b.mosx100)
  }

  /** The turns of the log, in order. */
  ghost function TurnsOf(log: seq<Outcome>): seq<Turn> {
    if |log| == 0 then []
    else
      var front, o := log[..|log| - 1], log[|log| - 1];
      if Completes(front, o) then TurnsOf(front) + [Turn(LastPacket(front), |front|)] else TurnsOf(front)
  }

  /** The position of the last packet. */
  function LastPacket(log: seq<Outcome>): int {
    if |log| == 0 then -1 else if !log[|log| - 1].Flushed? then |log| - 1 else LastPacket(log[..|log| - 1])
  }

  lemma {:induction false} LastPacketIsLast(log: seq<Outcome>)
    requires InOrder(log)
    ensures var j := LastPacket(log);
      && -1 <= j < |log| && (forall i :: j < i < |log| ==> log[i].Flushed?)
      && (j == -1 <==> LastSend(log) == 0)
      && (j >= 0 ==> !log[j].Flushed? && log[j].send == LastSend(log))
  {
    if |log| > 0 {
      LastPacketIsLast(log[..|log| - 1]);
    }
  }

  lemma TurnAtTheEnd(log: seq<Outcome>, t: Turn)
    requires |log| > 0 && InOrder(log)
    ensures var front, o := log[..|log| - 1], log[|log| - 1];
      OpensSecond(log, t) <==> OpensSecond(front, t) || (Completes(front, o) && t == Turn(LastPacket(front), |front|))
  {
    var front := log[..|log| - 1];
    LastPacketIsLast(front);
    assert forall i :: 0 <= i < |front| ==> front[i] == log[i];
  }

  lemma BucketIsReport(p: Setup, sec: int, own: Slot, window: Slot, jitterNs: real, during: bool)
    ensures var b := Bucket(p, sec, own, window, jitterNs, during);
      && b.reflector == p.reflector && b.ts == sec * 1000 && b.during == during && b.sent == own.sent && b.lost == own.lost
      && b.rttAvgUs == (if own.rttN > 0 then TruncDiv(own.rttSumUs, own.rttN) else 0)
      && b.jitterUs == (jitterNs / 1000.0).Floor && IsScore(p.ln, window, jitterNs, b.mosx100)
  {
  }

  lemma ReportAtTheEnd(p: Setup, front: seq<Outcome>, o: Outcome, b: SecondBucket)
    requires InOrder(front) && Completes(front, o)
    requires b == Bucket(p, LastSecond(front), SlotOf(front, LastSecond(front)), WindowOf(front), Jitter(front + [o]), o.during)
    ensures 0 <= LastPacket(front) < |front| && !front[LastPacket(front)].Flushed?
    ensures Reports(p, front, front[LastPacket(front)], o, b)
  {
    LastPacketIsLast(front);
    TallyMeans(front, LastSecond(front));
    BucketIsReport(p, LastSecond(front), SlotOf(front, LastSecond(front)), WindowOf(front), Jitter(front + [o]), o.during);
  }

  ghost predicate EachAReport(p: Setup, log: seq<Outcome>, bs: seq<SecondBucket>, turns: seq<Turn>) {
    && |bs| == |turns|
    && forall k :: 0 <= k < |bs| ==>
         && 0 <= turns[k].last < turns[k].next < |log| && !log[turns[k].last].Flushed?
         && Reports(p, log[..turns[k].next], log[turns[k].last], log[turns[k].next], bs[k])
  }

  /** There is exactly one report for every turn, in order, and it says what Reports says. */
  lemma {:induction false} EmittedAreReports(p: Setup, log: seq<Outcome>)
    requires InOrder(log)
    ensures EachAReport(p, log, Emitted(p, log), TurnsOf(log))
    ensures forall t :: t in TurnsOf(log) <==> OpensSecond(log, t)
    ensures forall k, l :: 0 <= k < l < |TurnsOf(log)| ==> TurnsOf(log)[k].next < TurnsOf(log)[l].next
  {
    if |log| > 0 {
      var front, o := log[..|log| - 1], log[|log| - 1];
      var turns := TurnsOf(front);
      EmittedAreReports(p, front);
      forall t ensures t in TurnsOf(log) <==> OpensSecond(log, t) {
        TurnAtTheEnd(log, t);
      }
      forall k | 0 <= k < |turns|
        ensures 0 <= turns[k].last < turns[k].next < |front| && log[..turns[k].next] == front[..turns[k].next]
      {
        assert turns[k] in turns;
      }
      if Completes(front, o) {
        assert log == front + [o] && log[..|front|] == front;
        ReportAtTheEnd(p, front, o, Emitted(p, log)[|turns|]);
      }
    }
  }

  function SentIn(bs: seq<SecondBucket>): int {
    if |bs| == 0 then 0 else SentIn(bs[..|bs| - 1]) + bs[|bs| - 1].sent
  }

  function LostIn(bs: seq<SecondBucket>): int {
    if |bs| == 0 then 0 else LostIn(bs[..|bs| - 1]) + bs[|bs| - 1].lost
  }

  /** The active second before and after a packet. */
  lemma ActiveStep(c: Counter, front: seq<Outcome>, o: Outcome, log: seq<Outcome>)
    requires log == front + [o] && InOrder(log) && InOrder(front) && !o.Flushed?
    ensures Tally(c, log, LastSecond(log)) ==
      OfOutcome(c, o, SendSecond(o)) + if Completes(front, o) then 0 else Tally(c, front, LastSecond(front))
  {
    assert log[..|log| - 1] == front;
    var sec := SendSecond(o);
    LatestIsInLog(front, sec % 10);
    if Completes(front, o) {
      LaterIsEmpty(c, front, sec);
    } else if LastSend(front) == 0 {
      NothingLatest(front, sec % 10);
      LaterIsEmpty(c, front, sec);
      NoEarlySeconds(c, front, 0);
    }
  }

  /** Packets are conserved: every packet is in an emitted second or in the active one, and so is every loss. */
  lemma {:induction false} PacketsAreConserved(p: Setup, log: seq<Outcome>)
    requires InOrder(log)
    ensures SentIn(Emitted(p, log)) + Tally(Sent, log, LastSecond(log)) == Packets(log)
    ensures LostIn(Emitted(p, log)) + Tally(LostOnes, log, LastSecond(log)) == Losses(log)
  {
    if |log| > 0 {
      var front, o := log[..|log| - 1], log[|log| - 1];
      PacketsAreConserved(p, front);
      if !o.Flushed? {
        assert log == front + [o];
        ActiveStep(Sent, front, o, log);
        ActiveStep(LostOnes, front, o, log);
        if Completes(front, o) {
          var bs := Emitted(p, front);
          assert Emitted(p, log)[..|bs|] == bs;
        }
      }
    }
  }

  // ----- freezes -----

  datatype FreezeEvent = FreezeEvent(reflector: int, startedAt: int, durationMs: int, packetsLost: int, during: bool)

  /** The number of losses that end the log. */
  function LossRun(log: seq<Outcome>): (n: nat)
    ensures n <= |log|
  {
    if |log| == 0 || !log[|log| - 1].Lost? then 0 else 1 + LossRun(log[..|log| - 1])
  }

  /** The send time of the first of them; zero if there is none. */
  function LossRunStart(log: seq<Outcome>): int {
    if LossRun(log) == 0 then 0 else SendTime(log[|log| - LossRun(log)])
  }

  function SendTime(o: Outcome): int {
    if o.Flushed? then 0 else o.send
  }

  /**
   The event of a loss run of n packets that began at start. A received packet ends the freeze at its own send time;
   a flush can only count packets.
   */
  function Freeze(p: Setup, start: int, n: int, end: Outcome): FreezeEvent {
    var duration := if end.Received? then end.send - start else n * p.interval;
    FreezeEvent(p.reflector, TruncDiv(start, MILLI), TruncDiv(duration, MILLI), n, end.during)
  }

  function Freezes(p: Setup, log: seq<Outcome>): seq<FreezeEvent> {
    if |log| == 0 then []
    else
      var front, o := log[..|log| - 1], log[|log| - 1];
      if !o.Lost? && LossRun(front) >= MIN_FREEZE_RUN then
        Freezes(p, front) + [Freeze(p, LossRunStart(front), LossRun(front), o)]
      else Freezes(p, front)
  }

  datatype Gap = Gap(first: int, end: int)

  /** The entries [first, end) are a maximal run of at least three losses, and entry end closes it. */
  ghost predicate IsFreeze(log: seq<Outcome>, g: Gap) {
    && 0 <= g.first && g.first + 3 <= g.end < |log|
    && (forall i :: g.first <= i < g.end ==> log[i].Lost?)
    && !log[g.end].Lost?
    && (g.first > 0 ==> !log[g.first - 1].Lost?)
  }

  ghost function Gaps(log: seq<Outcome>): seq<Gap> {
    if |log| == 0 then []
    else
      var front, o := log[..|log| - 1], log[|log| - 1];
      if !o.Lost? && LossRun(front) >= MIN_FREEZE_RUN then Gaps(front) + [Gap(|front| - LossRun(front), |front|)]
      else Gaps(front)
  }

  lemma {:induction false} LossRunIsMaximal(log: seq<Outcome>)
    ensures var n := LossRun(log);
      && (forall i :: |log| - n <= i < |log| ==> log[i].Lost?)
      && (n < |log| ==> !log[|log| - n - 1].Lost?)
  {
    if |log| > 0 && log[|log| - 1].Lost? {
      LossRunIsMaximal(log[..|log| - 1]);
    }
  }

  /** The last entry of the log closes the loss run before it. */
  ghost predicate EndsFreeze(log: seq<Outcome>, g: Gap)
    requires |log| > 0
  {
    var front := log[..|log| - 1];
    !log[|log| - 1].Lost? && LossRun(front) >= MIN_FREEZE_RUN && g == Gap(|front| - LossRun(front), |front|)
  }

  /** The freeze that ends at the last entry of a log is the loss run before it. */
  lemma FreezeAtTheEnd(log: seq<Outcome>, g: Gap)
    requires |log| > 0
    ensures IsFreeze(log, g) <==> (IsFreeze(log[..|log| - 1], g) || EndsFreeze(log, g))
  {
    var front := log[..|log| - 1];
    LossRunIsMaximal(front);
    assert forall i :: 0 <= i < |front| ==> front[i] == log[i];
  }

  /**
   The event starts with the first lost packet. It lasts to the send time of the packet that closes it, or, if a flush
   does, as long as its packets take to send; both in whole milliseconds.
   */
  ghost predicate DescribesFreeze(p: Setup, log: seq<Outcome>, f: FreezeEvent, g: Gap) {
    && 0 <= g.first < g.end < |log| && log[g.first].Lost?
    && f.reflector == p.reflector && f.packetsLost == g.end - g.first && f.during == log[g.end].during
    && f.startedAt == TruncDiv(log[g.first].send, 1_000_000)
    && f.durationMs ==
         if log[g.end].Received? then TruncDiv(log[g.end].send - log[g.first].send, 1_000_000)
         else TruncDiv((g.end - g.first) * p.interval, 1_000_000)
  }

  ghost predicate EachAFreeze(p: Setup, log: seq<Outcome>, fs: seq<FreezeEvent>, gs: seq<Gap>) {
    |fs| == |gs| && forall k :: 0 <= k < |fs| ==> DescribesFreeze(p, log, fs[k], gs[k])
  }

  ghost predicate Disjoint(gs: seq<Gap>) {
    forall k, l :: 0 <= k < l < |gs| ==> gs[k].end < gs[l].first
  }

  /**
   The events are exactly the maximal runs of at least three losses that have been closed: one event per run, in
   order, with the run's start, length and duration. Runs are disjoint, so no lost packet is in two events.
   */
  lemma {:induction false} FreezesAreTheLossRuns(p: Setup, log: seq<Outcome>)
    ensures EachAFreeze(p, log, Freezes(p, log), Gaps(log))
    ensures forall g :: g in Gaps(log) <==> IsFreeze(log, g)
    ensures Disjoint(Gaps(log))
  {
    if |log| > 0 {
      var front := log[..|log| - 1];
      FreezesAreTheLossRuns(p, front);
      LossRunIsMaximal(front);
      var gs := Gaps(front);
      forall g ensures g in Gaps(log) <==> IsFreeze(log, g) {
        FreezeAtTheEnd(log, g);
      }
      forall k | 0 <= k < |gs|
        ensures DescribesFreeze(p, log, Freezes(p, front)[k], gs[k])
        ensures gs[k].end < |front| && (LossRun(front) > 0 ==> gs[k].end < |front| - LossRun(front))
      {
        assert gs[k] in gs;
        assert DescribesFreeze(p, front, Freezes(p, front)[k], gs[k]);
      }
    }
  }

  lemma {:induction false} PacketsOfPrefix(log: seq<Outcome>, i: nat)
    requires Gapless(log) && i < |log| && !log[i].Flushed?
    ensures log[i].seqNo == Packets(log[..i + 1])
  {
    if i == |log| - 1 {
      assert log[..i + 1] == log;
    } else {
      PacketsOfPrefix(log[..|log| - 1], i);
      assert log[..|log| - 1][..i + 1] == log[..i + 1];
    }
  }

  lemma {:induction false} PacketsBetween(log: seq<Outcome>, i: nat, j: nat)
    requires i <= j <= |log| && forall k :: i <= k < j ==> !log[k].Flushed?
    ensures Packets(log[..j]) == Packets(log[..i]) + j - i
  {
    if i < j {
      PacketsBetween(log, i, j - 1);
      assert log[..j][..j - 1] == log[..j - 1];
    }
  }

  /** Packets between two entries, with no flush in between, are numbered consecutively. */
  lemma NumberedConsecutively(log: seq<Outcome>, i: nat, j: nat)
    requires Gapless(log) && i <= j < |log| && forall k :: i <= k <= j ==> !log[k].Flushed?
    ensures log[j].seqNo == log[i].seqNo + j - i
  {
    PacketsOfPrefix(log, i);
    PacketsOfPrefix(log, j);
    PacketsBetween(log, i + 1, j + 1);
  }

  /** A freeze is made of consecutive sequence numbers, and a received packet that closes it has the next one. */
  lemma FreezeIsConsecutive(log: seq<Outcome>, g: Gap, i: int)
    requires Gapless(log) && IsFreeze(log, g) && g.first <= i < g.end
    ensures log[i].seqNo == log[g.first].seqNo + i - g.first
    ensures log[g.end].Received? ==> log[g.end].seqNo == log[g.first].seqNo + g.end - g.first
  {
    NumberedConsecutively(log, g.first, i);
    if log[g.end].Received? {
      NumberedConsecutively(log, g.first, g.end);
    }
  }
}
