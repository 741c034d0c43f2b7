/**
 The call probe: packets are sent at a steady rate, echoes come back in any order, and a sweep finalizes packets
 strictly in the order they were sent. Each method is one region of code that holds the prober's lock.
 */
module CallProbe {
  import opened Common
  import opened CallQuality
  import opened ProbeLog

  const TIMEOUT := 2 * SECOND
  const DEFAULT_PPS := 50

  // ----- packets in flight -----

  /** Send times do not decrease, and the clock is past the first second of the epoch. */
  ghost predicate Rising(sends: seq<int>) {
    |sends| > 0 ==>
      Rising(sends[..|sends| - 1]) && SECOND <= sends[|sends| - 1] && LastOf(sends[..|sends| - 1]) <= sends[|sends| - 1]
  }

  function LastOf(sends: seq<int>): int {
    if |sends| == 0 then 0 else sends[|sends| - 1]
  }

  lemma {:induction false} RisingAt(sends: seq<int>, i: nat, j: nat)
    requires Rising(sends) && i <= j < |sends|
    ensures SECOND <= sends[i] <= sends[j]
  {
    if j < |sends| - 1 {
      RisingAt(sends[..|sends| - 1], i, j);
    } else if i < j {
      RisingAt(sends[..|sends| - 1], i, j - 1);
    }
  }

  /** Every packet of the log carries the time at which its number was sent. */
  ghost predicate Truthful(log: seq<Outcome>, sends: seq<int>) {
    |log| > 0 ==>
      && Truthful(log[..|log| - 1], sends)
      && (log[|log| - 1].Flushed? ||
          (1 <= log[|log| - 1].seqNo <= |sends| && log[|log| - 1].send == sends[log[|log| - 1].seqNo - 1]))
  }

  lemma {:induction false} TruthfulGrows(log: seq<Outcome>, sends: seq<int>, more: seq<int>, now: int)
    requires Truthful(log, sends) && more == sends + [now]
    ensures Truthful(log, more)
  {
    if |log| > 0 {
      TruthfulGrows(log[..|log| - 1], sends, more, now);
    }
  }

  /** The log holds the packets below next, each once and in order, with their send times. */
  ghost predicate Finalized(log: seq<Outcome>, sends: seq<int>, next: int) {
    && Gapless(log) && InOrder(log) && Truthful(log, sends) && Rising(sends)
    && next == Packets(log) + 1 && next <= |sends| + 1
    && LastSend(log) == if next == 1 then 0 else sends[next - 2]
  }

  /** Exactly the packets [next, lastSeq) are in flight, and only they can have an echo. */
  ghost predicate InFlight(sends: seq<int>, sent: map<int, int>, rtts: map<int, int>, next: int, lastSeq: int) {
    && 1 <= next <= lastSeq == |sends| + 1
    && (forall s :: s in sent <==> next <= s < lastSeq)
    && (forall s :: s in sent ==> sent[s] == sends[s - 1])
    && (forall s :: s in rtts ==> s in sent)
  }

  lemma SendKeepsFinalized(log: seq<Outcome>, sends: seq<int>, more: seq<int>, next: int, now: int)
    requires Finalized(log, sends, next) && more == sends + [now] && SECOND <= now && LastOf(sends) <= now
    ensures Finalized(log, more, next)
  {
    TruthfulGrows(log, sends, more, now);
    assert more[..|more| - 1] == sends;
  }

  /** Logging packet number next keeps the log gap-free and ordered. */
  lemma LoggedIsFinalized(log: seq<Outcome>, o: Outcome, longer: seq<Outcome>, sends: seq<int>, next: int)
    requires Finalized(log, sends, next) && longer == log + [o] && next <= |sends|
    requires !o.Flushed? && o.seqNo == next && o.send == sends[next - 1]
    ensures Finalized(longer, sends, next + 1)
  {
    assert longer[..|longer| - 1] == log;
    RisingAt(sends, if next == 1 then 0 else next - 2, next - 1);
  }

  lemma FlushKeepsFinalized(log: seq<Outcome>, longer: seq<Outcome>, sends: seq<int>, next: int, during: bool)
    requires Finalized(log, sends, next) && longer == log + [Flushed(during)]
    ensures Finalized(longer, sends, next)
  {
    assert longer[..|longer| - 1] == log;
  }

  /** What finalizing packet s records, from the maps and the speed-test flag as the sweep finds them. */
  ghost function Verdict(sent: map<int, int>, rtts: map<int, int>, s: int, during: bool): Outcome
    requires s in sent
  {
    if s in rtts then Received(s, sent[s], rtts[s], during) else Lost(s, sent[s], during)
  }

  /** A packet can be finalized once its echo arrived or it is older than the timeout. */
  predicate Resolvable(sent: map<int, int>, rtts: map<int, int>, now: int, s: int)
    requires s in sent
  {
    s in rtts || now - sent[s] > TIMEOUT
  }

  /** The entries of the packets [lo, hi). */
  ghost function Verdicts(sent: map<int, int>, rtts: map<int, int>, lo: int, hi: int, during: int -> bool): seq<Outcome>
    requires forall s :: lo <= s < hi ==> s in sent
    decreases hi - lo
  {
    if lo >= hi then [] else Verdicts(sent, rtts, lo, hi - 1, during) + [Verdict(sent, rtts, hi - 1, during(hi - 1))]
  }

  lemma {:induction false} VerdictAt(sent: map<int, int>, rtts: map<int, int>, lo: int, hi: int, during: int -> bool, s: int)
    requires (forall q :: lo <= q < hi ==> q in sent) && lo <= s < hi
    ensures |Verdicts(sent, rtts, lo, hi, during)| == hi - lo
    ensures Verdicts(sent, rtts, lo, hi, during)[s - lo] ==
      if s in rtts then Received(s, sent[s], rtts[s], during(s)) else Lost(s, sent[s], during(s))
    decreases hi - lo
  {
    VerdictsLength(sent, rtts, lo, hi - 1, during);
    if s < hi - 1 {
      VerdictAt(sent, rtts, lo, hi - 1, during, s);
    }
  }

  lemma {:induction false} VerdictsLength(sent: map<int, int>, rtts: map<int, int>, lo: int, hi: int, during: int -> bool)
    requires forall q :: lo <= q < hi ==> q in sent
    ensures |Verdicts(sent, rtts, lo, hi, during)| == if lo <= hi then hi - lo else 0
    decreases hi - lo
  {
    if lo < hi {
      VerdictsLength(sent, rtts, lo, hi - 1, during);
    }
  }

  /**
   How far a sweep at time now gets: over every packet that can be finalized, up to the first one that can not. From
   there on all packets are at most the timeout old, because they were sent later.
   */
  ghost predicate SweptTo(sent: map<int, int>, rtts: map<int, int>, now: int, lo: int, hi: int, lastSeq: int)
    requires forall s :: lo <= s < lastSeq ==> s in sent
  {
    && lo <= hi <= lastSeq
    && (forall s :: lo <= s < hi ==> Resolvable(sent, rtts, now, s))
    && (hi < lastSeq ==> !Resolvable(sent, rtts, now, hi))
  }

  /** Resolving the head keeps the maps in step with the pointer. */
  lemma ResolvingKeepsInFlight(sends: seq<int>, sent: map<int, int>, rtts: map<int, int>, next: int, lastSeq: int)
    requires InFlight(sends, sent, rtts, next, lastSeq) && next < lastSeq
    ensures InFlight(sends, sent - {next}, rtts - {next}, next + 1, lastSeq)
  {
  }

  /** The map without its entries below next. */
  ghost predicate Remains(before: map<int, int>, after: map<int, int>, next: int) {
    && (forall s :: s in after <==> s in before && next <= s)
    && (forall s :: s in after ==> after[s] == before[s])
  }

  ghost predicate AllRecent(sent: map<int, int>, now: int) {
    forall s :: s in sent ==> now - sent[s] <= TIMEOUT
  }

  /** The sweep so far: packets [lo, next) could be finalized and have been. */
  ghost predicate Sweeping(start: Sweep, now: int, log: seq<Outcome>, sent: map<int, int>, rtts: map<int, int>, next: int) {
    && start.next <= next
    && (forall s :: start.next <= s < next ==> s in start.sent)
    && (forall s :: start.next <= s < next ==> Resolvable(start.sent, start.rtts, now, s))
    && log == start.log + Verdicts(start.sent, start.rtts, start.next, next, start.during)
    && Remains(start.sent, sent, next) && Remains(start.rtts, rtts, next)
  }

  /** The state that a sweep starts from. */
  datatype Sweep = Sweep(log: seq<Outcome>, sent: map<int, int>, rtts: map<int, int>, next: int, during: int -> bool)

  lemma SweepNext(start: Sweep, now: int, log: seq<Outcome>, sent: map<int, int>, rtts: map<int, int>, next: int,
                  longer: seq<Outcome>)
    requires Sweeping(start, now, log, sent, rtts, next)
    requires next in sent && Resolvable(sent, rtts, now, next) && longer == log + [Verdict(sent, rtts, next, start.during(next))]
    ensures Sweeping(start, now, longer, sent - {next}, rtts - {next}, next + 1)
  {
  }

  /**
   The entry of packet s: with its number, its send time and the flag read for it; as received, with its round-trip
   time, if an echo is known, and otherwise as lost, which takes more than two seconds.
   */
  ghost predicate IsEntryOf(o: Outcome, s: int, sent: map<int, int>, rtts: map<int, int>, now: int, during: int -> bool) {
    && !o.Flushed? && o.seqNo == s && s in sent && o.send == sent[s] && o.during == during(s)
    && (o.Received? <==> s in rtts) && (o.Received? ==> o.rtt == rtts[s])
    && (o.Lost? ==> now - sent[s] > 2_000_000_000)
  }

  /** One entry is appended for each of the packets [lo, hi), in order. */
  ghost predicate LogsEachPacket(before: seq<Outcome>, sent: map<int, int>, rtts: map<int, int>, lo: int, now: int,
                                 during: int -> bool, log: seq<Outcome>, hi: int) {
    && lo <= hi && |log| == |before| + hi - lo && log[..|before|] == before
    && forall i :: |before| <= i < |log| ==> IsEntryOf(log[i], lo + i - |before|, sent, rtts, now, during)
  }

  lemma SweepLogsEachPacket(start: Sweep, now: int, log: seq<Outcome>, sent: map<int, int>, rtts: map<int, int>, next: int)
    requires Sweeping(start, now, log, sent, rtts, next)
    ensures LogsEachPacket(start.log, start.sent, start.rtts, start.next, now, start.during, log, next)
  {
    var verdicts := Verdicts(start.sent, start.rtts, start.next, next, start.during);
    VerdictsLength(start.sent, start.rtts, start.next, next, start.during);
    assert log[..|start.log|] == start.log;
    forall i | |start.log| <= i < |log|
      ensures IsEntryOf(log[i], start.next + i - |start.log|, start.sent, start.rtts, now, start.during)
    {
      var s := start.next + i - |start.log|;
      assert log[i] == verdicts[i - |start.log|];
      VerdictAt(start.sent, start.rtts, start.next, next, start.during, s);
      assert Resolvable(start.sent, start.rtts, now, s);
    }
  }

  /** SweptTo determines how far: a sweep has one possible result. */
  lemma SweepIsDetermined(sent: map<int, int>, rtts: map<int, int>, now: int, lo: int, hi: int, other: int, lastSeq: int)
    requires forall s :: lo <= s < lastSeq ==> s in sent
    requires SweptTo(sent, rtts, now, lo, hi, lastSeq) && SweptTo(sent, rtts, now, lo, other, lastSeq)
    ensures hi == other
  {
  }

  /** Once the head waits for an echo that can still come, every packet in flight is at most the timeout old. */
  lemma NothingOldInFlight(sends: seq<int>, sent: map<int, int>, rtts: map<int, int>, next: int, lastSeq: int, now: int)
    requires Rising(sends) && InFlight(sends, sent, rtts, next, lastSeq)
    requires next < lastSeq ==> !Resolvable(sent, rtts, now, next)
    ensures AllRecent(sent, now)
  {
    forall s | s in sent ensures now - sent[s] <= TIMEOUT {
      RisingAt(sends, next - 1, s - 1);
    }
  }

  // ----- the ring of ten one-second slots -----

  const EMPTY_SLOT := Slot(0, 0, 0, 0)

  ghost predicate RingSlot(log: seq<Outcome>, i: int, w: Slot, sec: int) {
    sec == Latest(log, i) && w == SlotOf(log, sec)
  }

  /** A slot that is reset for a new second starts from the counters of that second, which are all zero. */
  lemma FreshSlotIsEmpty(log: seq<Outcome>, send: int)
    requires InOrder(log) && SECOND <= send && LastSend(log) <= send
    ensures Latest(log, send / SECOND % 10) != send / SECOND ==> SlotOf(log, send / SECOND) == EMPTY_SLOT
  {
    var sec := send / SECOND;
    LatestIsInLog(log, sec % 10);
    if Latest(log, sec % 10) < sec {
      LaterIsEmpty(Sent, log, sec);
      LaterIsEmpty(LostOnes, log, sec);
      LaterIsEmpty(RttSumUs, log, sec);
      LaterIsEmpty(RttN, log, sec);
    }
  }

  function Tallied(w: Slot, o: Outcome): Slot {
    match o
    case Received(_, _, rtt, _) => w.(sent := w.sent + 1, rttSumUs := w.rttSumUs + TruncDiv(rtt, 1000), rttN := w.rttN + 1)
    case Lost(_, _, _) => w.(sent := w.sent + 1, lost := w.lost + 1)
    case Flushed(_) => w
  }

  /** The slot of a packet's second counts it. */
  lemma OwnSlotCounts(log: seq<Outcome>, o: Outcome, longer: seq<Outcome>, w: Slot)
    requires longer == log + [o] && !o.Flushed? && w == SlotOf(log, SendSecond(o))
    ensures RingSlot(longer, SendSecond(o) % 10, Tallied(w, o), SendSecond(o))
  {
    assert longer[..|longer| - 1] == log;
  }

  /** Every other slot keeps its second and its counters. */
  lemma OtherSlotsKeep(log: seq<Outcome>, o: Outcome, longer: seq<Outcome>, i: int, w: Slot, sec: int)
    requires InOrder(longer) && longer == log + [o] && !o.Flushed? && SendSecond(o) % 10 != i
    requires RingSlot(log, i, w, sec)
    ensures RingSlot(longer, i, w, sec)
  {
    assert longer[..|longer| - 1] == log;
    LatestIsInLog(log, i);
  }

  lemma FlushKeepsSlot(log: seq<Outcome>, longer: seq<Outcome>, i: int, w: Slot, sec: int, during: bool)
    requires longer == log + [Flushed(during)] && RingSlot(log, i, w, sec)
    ensures RingSlot(longer, i, w, sec)
  {
    assert longer[..|longer| - 1] == log;
  }

  /** The active second has at least one packet, so completing it always emits a bucket. */
  lemma ActiveSlotIsBusy(log: seq<Outcome>, i: int, w: Slot, sec: int)
    requires InOrder(log) && LastSend(log) != 0 && i == LastSecond(log) % 10 && RingSlot(log, i, w, sec)
    ensures sec == LastSecond(log) && w.sent >= 1
  {
    LatestIsInLog(log, i);
    LatestHoldsPackets(log, i);
  }

  // ----- the loss run -----

  lemma LossRunGrows(log: seq<Outcome>, o: Outcome, longer: seq<Outcome>)
    requires longer == log + [o] && o.Lost?
    ensures LossRun(longer) == LossRun(log) + 1
    ensures LossRunStart(longer) == if LossRun(log) == 0 then o.send else LossRunStart(log)
  {
    assert longer[..|longer| - 1] == log;
  }

  /** Without a rate of its own a prober sends 50 packets a second. */
  function SetupOf(reflector: int, ln: real -> real, pps: int): Setup {
    Setup(reflector, ln, SECOND / if pps <= 0 then DEFAULT_PPS else pps)
  }

  // ----- the prober -----

  class Prober {
    const reflector: int
    const ln: real -> real
    const pps: int
    var sent: map<int, int>
    var rtts: map<int, int>
    var next: int
    var lastSeq: int

    var jitterNs: real
    var prevRTTNs: int
    var runLost: int
    var runStartNs: int
    const window: array<Slot>
    const curSecond: array<int>
    var activeSec: int

    /** What the two callbacks have been handed so far. */
    var seconds: seq<SecondBucket>
    var freezes: seq<FreezeEvent>

    ghost var log: seq<Outcome>
    ghost var sends: seq<int>

    function Settings(): Setup
      requires pps > 0
    {
      Setup(reflector, ln, SECOND / pps)
    }

    ghost predicate ArraysValid() {
      pps > 0 && window.Length == 10 && curSecond.Length == 10 && window as object != curSecond as object
    }

    /** Each slot of the ring holds the latest second that falls on it. */
    ghost predicate RingHolds(h: seq<Outcome>)
      requires ArraysValid()
      reads window, curSecond
    {
      forall i :: 0 <= i < 10 ==> RingSlot(h, i, window[i], curSecond[i])
    }

    ghost predicate JitterHolds(h: seq<Outcome>)
      reads this`jitterNs, this`prevRTTNs
    {
      jitterNs == Jitter(h) && prevRTTNs == LastRtt(h)
    }

    ghost predicate SecondsHold(h: seq<Outcome>)
      requires ArraysValid()
      reads this`activeSec, this`seconds
    {
      activeSec == LastSecond(h) && seconds == Emitted(Settings(), h)
    }

    ghost predicate RunHolds(h: seq<Outcome>)
      requires ArraysValid()
      reads this`runLost, this`runStartNs
    {
      runLost == LossRun(h) && (runLost > 0 ==> runStartNs == LossRunStart(h))
    }

    ghost predicate FreezesHold(h: seq<Outcome>)
      requires ArraysValid()
      reads this`freezes
    {
      freezes == Freezes(Settings(), h)
    }

    /** Every output and every piece of state is a function of the log. */
    ghost predicate Valid()
      reads this, window, curSecond
    {
      && ArraysValid()
      && Finalized(log, sends, next) && InFlight(sends, sent, rtts, next, lastSeq)
      && RingHolds(log) && JitterHolds(log) && SecondsHold(log) && RunHolds(log) && FreezesHold(log)
    }

    ghost function Content(): Stream
      reads this
    {
      Stream(log, sends, sent, rtts, next, lastSeq)
    }

    constructor (reflector: int, ln: real -> real, pps: int)
      ensures Valid() && fresh(window) && fresh(curSecond)
      ensures Settings() == SetupOf(reflector, ln, pps)
      ensures Content() == NO_STREAM
    {
      this.reflector, this.ln, this.pps := reflector, ln, if pps <= 0 then DEFAULT_PPS else pps;
      sent, rtts, next, lastSeq := map[], map[], 1, 1;
      jitterNs, prevRTTNs, runLost, runStartNs, activeSec := 0.0, 0, 0, 0, 0;
      window := new Slot[10](_ => EMPTY_SLOT);
      curSecond := new int[10](_ => 0);
      seconds, freezes, log, sends := [], [], [], [];
    }

    /** One tick of the send loop. */
    method Send(now: int) returns (seqNo: int)
      requires Valid() && SECOND <= now && LastOf(sends) <= now
      modifies this`sent, this`lastSeq, this`sends
      ensures Valid()
      ensures seqNo == old(lastSeq) && lastSeq == seqNo + 1
      ensures sent == old(sent)[seqNo := now] && sends == old(sends) + [now]
    {
      SendKeepsFinalized(log, sends, sends + [now], next, now);
      seqNo := lastSeq;
      lastSeq := lastSeq + 1;
      sent := sent[seqNo := now];
      sends := sends + [now];
    }

    /**
     An echo arrives, possibly late, twice, or for a number that was never sent. The round-trip time is taken from
     the send time inside the packet.
     */
    method Echo(seqNo: int, sendNano: int, now: int)
      requires Valid()
      modifies this`rtts
      ensures Valid()
      ensures rtts == if next <= seqNo < lastSeq then old(rtts)[seqNo := now - sendNano] else old(rtts)
    {
      if seqNo in sent {
        rtts := rtts[seqNo := now - sendNano];
      }
    }

    /** The sums over all ten slots, and the figures derived from them. */
    method WindowStatsLocked() returns (st: WindowStats)
      requires ArraysValid() && RingHolds(log)
      ensures st == StatsOf(WindowOf(log), jitterNs)
    {
      var sum := EMPTY_SLOT;
      for i := 0 to 10
        invariant sum == Slot(RingSum(Sent, log, i), RingSum(LostOnes, log, i), RingSum(RttSumUs, log, i), RingSum(RttN, log, i))
      {
        assert RingSlot(log, i, window[i], curSecond[i]);
        var w := window[i];
        sum := Slot(sum.sent + w.sent, sum.lost + w.lost, sum.rttSumUs + w.rttSumUs, sum.rttN + w.rttN);
      }
      st := WindowStats(
        if sum.sent > 0 then 100.0 * sum.lost as real / sum.sent as real else 0.0,
        if sum.rttN > 0 then TruncDiv(sum.rttSumUs, sum.rttN) as real / 1000.0 else 0.0,
        jitterNs / 1000000.0);
    }

    /** Hands the completed second to the callback. A second without packets would not be reported. */
    method EmitSecond(sec: int, w: Slot, during: bool)
      requires ArraysValid() && RingHolds(log)
      modifies this`seconds
      ensures seconds == old(seconds) + if w.sent == 0 then [] else [Bucket(Settings(), sec, w, WindowOf(log), jitterNs, during)]
    {
      if w.sent == 0 {
        return;
      }
      var rttAvg := 0;
      if w.rttN > 0 {
        rttAvg := TruncDiv(w.rttSumUs, w.rttN);
      }
      var st := WindowStatsLocked();
      seconds := seconds + [SecondBucket(reflector, sec * 1000, w.sent, w.lost, rttAvg, (jitterNs / 1000.0).Floor,
                                         (Mos(ln, st.lossPct, st.rttMs, st.jitterMs) * 100.0).Floor, during)];
    }

    /** Finds the slot of a send time. When the second advances, the one before is complete and is emitted. */
    method BucketFor(send: int, during: bool) returns (idx: int)
      requires ArraysValid() && RingHolds(log) && InOrder(log) && activeSec == LastSecond(log)
      requires SECOND <= send && LastSend(log) <= send
      modifies this`seconds, this`activeSec, window, curSecond
      ensures activeSec == send / SECOND && idx == activeSec % 10
      ensures seconds == old(seconds) +
        if LastSend(log) == 0 || LastSecond(log) == send / SECOND then []
        else [Bucket(Settings(), LastSecond(log), SlotOf(log, LastSecond(log)), WindowOf(log), jitterNs, during)]
      ensures window[idx] == SlotOf(log, activeSec) && curSecond[idx] == activeSec
      ensures forall i :: 0 <= i < 10 && i != idx ==> window[i] == old(window[i]) && curSecond[i] == old(curSecond[i])
    {
      var sec := send / SECOND;
      LatestIsInLog(log, 0);
      if activeSec != 0 && sec != activeSec {
        var prevIdx := activeSec % 10;
        ActiveSlotIsBusy(log, prevIdx, window[prevIdx], curSecond[prevIdx]);
        EmitSecond(activeSec, window[prevIdx], during);
      }
      activeSec := sec;
      idx := sec % 10;
      FreshSlotIsEmpty(log, send);
      assert RingSlot(log, idx, window[idx], curSecond[idx]);
      if curSecond[idx] != sec {
        window[idx] := EMPTY_SLOT;
        curSecond[idx] := sec;
      }
    }

    /** Once a packet is counted in the slot of its second, the ring holds the log with that packet. */
    lemma RingCounts(o: Outcome, longer: seq<Outcome>)
      requires ArraysValid() && InOrder(longer) && longer == log + [o] && !o.Flushed?
      requires var idx := SendSecond(o) % 10;
        && window[idx] == Tallied(SlotOf(log, SendSecond(o)), o) && curSecond[idx] == SendSecond(o)
        && forall i :: 0 <= i < 10 && i != idx ==> RingSlot(log, i, window[i], curSecond[i])
      ensures RingHolds(longer)
    {
      var idx := SendSecond(o) % 10;
      OwnSlotCounts(log, o, longer, SlotOf(log, SendSecond(o)));
      forall i | 0 <= i < 10 && i != idx ensures RingSlot(longer, i, window[i], curSecond[i]) {
        OtherSlotsKeep(log, o, longer, i, window[i], curSecond[i]);
      }
    }

    method AccountReceived(send: int, rtt: int, during: bool, ghost o: Outcome, ghost longer: seq<Outcome>)
      requires ArraysValid() && RingHolds(log) && JitterHolds(log) && SecondsHold(log)
      requires InOrder(longer) && longer == log + [o] && o.Received? && o == Received(o.seqNo, send, rtt, during)
      modifies this`jitterNs, this`prevRTTNs, this`seconds, this`activeSec, window, curSecond
      ensures RingHolds(longer) && JitterHolds(longer) && SecondsHold(longer)
    {
      assert longer[..|longer| - 1] == log;
      if prevRTTNs > 0 {
        var d := Abs(rtt - prevRTTNs) as real;
        jitterNs := jitterNs + (d - jitterNs) / 16.0;
      }
      prevRTTNs := rtt;
      var idx := BucketFor(send, during);
      var w := window[idx];
      window[idx] := Slot(w.sent + 1, w.lost, w.rttSumUs + TruncDiv(rtt, 1000), w.rttN + 1);
      RingCounts(o, longer);
    }

    method AccountLost(send: int, during: bool, ghost o: Outcome, ghost longer: seq<Outcome>)
      requires ArraysValid() && RingHolds(log) && JitterHolds(log) && SecondsHold(log) && RunHolds(log) && FreezesHold(log)
      requires InOrder(longer) && longer == log + [o] && o.Lost? && o == Lost(o.seqNo, send, during)
      modifies this`runLost, this`runStartNs, this`seconds, this`activeSec, window, curSecond
      ensures RingHolds(longer) && JitterHolds(longer) && SecondsHold(longer) && RunHolds(longer) && FreezesHold(longer)
    {
      assert longer[..|longer| - 1] == log;
      LossRunGrows(log, o, longer);
      if runLost == 0 {
        runStartNs := send;
      }
      runLost := runLost + 1;
      var idx := BucketFor(send, during);
      var w := window[idx];
      window[idx] := Slot(w.sent + 1, w.lost + 1, w.rttSumUs, w.rttN);
      RingCounts(o, longer);
    }

    /** A received packet ends the loss run, which is a freeze if it is long enough. */
    method CloseRun(endSend: int, during: bool, ghost o: Outcome, ghost longer: seq<Outcome>)
      requires ArraysValid() && RunHolds(log) && FreezesHold(log)
      requires longer == log + [o] && o.Received? && o.send == endSend && o.during == during
      modifies this`runLost, this`freezes
      ensures RunHolds(longer) && FreezesHold(longer)
    {
      assert longer[..|longer| - 1] == log;
      if runLost >= MIN_FREEZE_RUN {
        freezes := freezes + [FreezeEvent(reflector, TruncDiv(runStartNs, MILLI), TruncDiv(endSend - runStartNs, MILLI), runLost, during)];
      }
      runLost := 0;
    }

    /** Before a restart, a loss run in progress is reported as a freeze whose length is estimated from its packets. */
    method FlushRun(during: bool)
      requires Valid()
      modifies this`runLost, this`freezes, this`log
      ensures Valid()
      ensures log == old(log) + [Flushed(during)]
    {
      ghost var longer := log + [Flushed(during)];
      assert longer[..|longer| - 1] == log;
      FlushKeepsFinalized(log, longer, sends, next, during);
      forall i | 0 <= i < 10 ensures RingSlot(longer, i, window[i], curSecond[i]) {
        FlushKeepsSlot(log, longer, i, window[i], curSecond[i], during);
      }
      if runLost >= MIN_FREEZE_RUN {
        freezes := freezes + [FreezeEvent(reflector, TruncDiv(runStartNs, MILLI), TruncDiv(runLost * (SECOND / pps), MILLI), runLost, during)];
      }
      runLost := 0;
      log := longer;
    }

    /** Everything about the accounts, as opposed to the packets in flight. */
    ghost predicate AccountsHold(h: seq<Outcome>)
      requires ArraysValid()
      reads this, window, curSecond
    {
      RingHolds(h) && JitterHolds(h) && SecondsHold(h) && RunHolds(h) && FreezesHold(h)
    }

    /** Accounts for the next packet if that is possible yet. */
    method Account(seqNo: int, sendNano: int, now: int, during: bool, ghost o: Outcome,
                   ghost longer: seq<Outcome>) returns (done: bool)
      requires ArraysValid() && AccountsHold(log) && InOrder(longer) && longer == log + [o]
      requires seqNo in sent && sendNano == sent[seqNo] && o == Verdict(sent, rtts, seqNo, during)
      modifies this`jitterNs, this`prevRTTNs, this`seconds, this`activeSec, this`runLost, this`runStartNs, this`freezes
      modifies window, curSecond
      ensures done == Resolvable(sent, rtts, now, seqNo)
      ensures AccountsHold(if done then longer else log)
    {
      if seqNo in rtts {
        CloseRun(sendNano, during, o, longer);
        AccountReceived(sendNano, rtts[seqNo], during, o, longer);
      } else if now - sendNano > TIMEOUT {
        AccountLost(sendNano, during, o, longer);
      } else {
        return false;
      }
      done := true;
    }

    /** Forgets the packet that was just accounted for and moves on to the next one. */
    method Retire(ghost longer: seq<Outcome>)
      requires ArraysValid() && AccountsHold(longer) && Finalized(longer, sends, next + 1)
      requires InFlight(sends, sent, rtts, next, lastSeq) && next < lastSeq
      modifies this`sent, this`rtts, this`next, this`log
      ensures Valid()
      ensures next == old(next) + 1 && log == longer
      ensures sent == old(sent) - {old(next)} && rtts == old(rtts) - {old(next)}
    {
      ResolvingKeepsInFlight(sends, sent, rtts, next, lastSeq);
      sent := sent - {next};
      rtts := rtts - {next};
      next := next + 1;
      log := longer;
    }

    /** Resolves the next packet if that is possible yet. */
    method FinalizeNext(now: int, during: bool) returns (done: bool)
      requires Valid() && next < lastSeq
      modifies this`sent, this`rtts, this`next, this`log
      modifies this`jitterNs, this`prevRTTNs, this`seconds, this`activeSec, this`runLost, this`runStartNs, this`freezes
      modifies window, curSecond
      ensures Valid()
      ensures done == Resolvable(old(sent), old(rtts), now, old(next))
      ensures done ==>
        && next == old(next) + 1
        && sent == old(sent) - {old(next)} && rtts == old(rtts) - {old(next)}
        && log == old(log) + [Verdict(old(sent), old(rtts), old(next), during)]
      ensures !done ==> next == old(next) && sent == old(sent) && rtts == old(rtts) && log == old(log)
    {
      var seqNo := next;
      if seqNo !in sent {
        assert false;
      }
      ghost var o := Verdict(sent, rtts, seqNo, during);
      ghost var longer := log + [o];
      LoggedIsFinalized(log, o, longer, sends, next);
      done := Account(seqNo, sent[seqNo], now, during, o, longer);
      if done {
        Retire(longer);
      }
    }

    /** One turn of the sweep. */
    method SweepOnce(now: int, during: bool, ghost start: Sweep) returns (done: bool)
      requires Valid() && next < lastSeq && Sweeping(start, now, log, sent, rtts, next) && during == start.during(next)
      modifies this`sent, this`rtts, this`next, this`log
      modifies this`jitterNs, this`prevRTTNs, this`seconds, this`activeSec, this`runLost, this`runStartNs, this`freezes
      modifies window, curSecond
      ensures Valid() && Sweeping(start, now, log, sent, rtts, next)
      ensures next == old(next) + if done then 1 else 0
      ensures !done ==> !Resolvable(sent, rtts, now, next)
    {
      ghost var h, inFlight, echoed, head := log, sent, rtts, next;
      done := FinalizeNext(now, during);
      if done {
        SweepNext(start, now, h, inFlight, echoed, head, log);
      }
    }

    /** The sweep: advances the in-order pointer as far as it can. */
    method Finalize(now: int, during: int -> bool)
      requires Valid()
      modifies this`sent, this`rtts, this`next, this`log
      modifies this`jitterNs, this`prevRTTNs, this`seconds, this`activeSec, this`runLost, this`runStartNs, this`freezes
      modifies window, curSecond
      ensures Valid()
      ensures SweptTo(old(sent), old(rtts), now, old(next), next, lastSeq)
      ensures log == old(log) + Verdicts(old(sent), old(rtts), old(next), next, during)
      ensures Remains(old(sent), sent, next) && Remains(old(rtts), rtts, next)
      ensures LogsEachPacket(old(log), old(sent), old(rtts), old(next), now, during, log, next)
      ensures next < lastSeq ==> next !in rtts
      ensures forall s :: s in sent ==> now - sent[s] <= 2_000_000_000
    {
      ghost var start := Sweep(log, sent, rtts, next, during);
      while next < lastSeq
        invariant Valid() && Sweeping(start, now, log, sent, rtts, next)
        decreases lastSeq - next
      {
        var done := SweepOnce(now, during(next), start);
        if !done {
          break;
        }
      }
      NothingOldInFlight(sends, sent, rtts, next, lastSeq, now);
      SweepLogsEachPacket(start, now, log, sent, rtts, next);
    }
  }

  // ----- whole runs -----

  /** A sweep carries, for each packet it finalizes, whether a speed test is running. */
  datatype Step =
    | SendStep(now: int)
    | EchoStep(seqNo: int, sendNano: int, now: int)
    | SweepStep(now: int, flags: int -> bool)
    | FlushStep(during: bool)

  function SendTimes(steps: seq<Step>): seq<int> {
    if |steps| == 0 then []
    else if steps[|steps| - 1].SendStep? then SendTimes(steps[..|steps| - 1]) + [steps[|steps| - 1].now]
    else SendTimes(steps[..|steps| - 1])
  }

  /** The send times of a run rise if those before its last step do and the last step does not go back. */
  lemma RisingStep(steps: seq<Step>)
    requires |steps| > 0 && Rising(SendTimes(steps))
    ensures var front, step := steps[..|steps| - 1], steps[|steps| - 1];
      Rising(SendTimes(front)) && (step.SendStep? ==> SECOND <= step.now && LastOf(SendTimes(front)) <= step.now)
  {
    var sends := SendTimes(steps);
    if steps[|steps| - 1].SendStep? {
      assert sends[..|sends| - 1] == SendTimes(steps[..|steps| - 1]);
    }
  }

  /** The packet stream of a prober: the log and everything in flight. All other state and all outputs are functions of the log. */
  datatype Stream = Stream(log: seq<Outcome>, sends: seq<int>, sent: map<int, int>, rtts: map<int, int>, next: int, lastSeq: int)

  const NO_STREAM := Stream([], [], map[], map[], 1, 1)

  ghost predicate StepTo(b: Stream, step: Step, b': Stream) {
    match step
    case SendStep(now) =>
      b' == Stream(b.log, b.sends + [now], b.sent[b.lastSeq := now], b.rtts, b.next, b.lastSeq + 1)
    case EchoStep(seqNo, sendNano, now) =>
      b' == b.(rtts := if b.next <= seqNo < b.lastSeq then b.rtts[seqNo := now - sendNano] else b.rtts)
    case SweepStep(now, during) =>
      && (forall s :: b.next <= s < b.lastSeq ==> s in b.sent)
      && SweptTo(b.sent, b.rtts, now, b.next, b'.next, b.lastSeq)
      && b'.log == b.log + Verdicts(b.sent, b.rtts, b.next, b'.next, during)
      && Remains(b.sent, b'.sent, b'.next) && Remains(b.rtts, b'.rtts, b'.next)
      && b'.sends == b.sends && b'.lastSeq == b.lastSeq
    case FlushStep(during) =>
      b' == b.(log := b.log + [Flushed(during)])
  }

  /** The stream before the first step and after each one. */
  ghost predicate IsRun(steps: seq<Step>, trace: seq<Stream>) {
    && |trace| == |steps| + 1
    && if |steps| == 0 then trace[0] == NO_STREAM
       else IsRun(steps[..|steps| - 1], trace[..|steps|]) && StepTo(trace[|steps| - 1], steps[|steps| - 1], trace[|steps|])
  }

  method PerformSweep(p: Prober, now: int, during: int -> bool)
    requires p.Valid()
    modifies p, p.window, p.curSecond
    ensures p.Valid() && p.sends == old(p.sends)
    ensures StepTo(old(p.Content()), SweepStep(now, during), p.Content())
  {
    p.Finalize(now, during);
  }

  method Perform(p: Prober, step: Step)
    requires p.Valid()
    requires step.SendStep? ==> SECOND <= step.now && LastOf(p.sends) <= step.now
    modifies p, p.window, p.curSecond
    ensures p.Valid()
    ensures StepTo(old(p.Content()), step, p.Content())
    ensures p.sends == if step.SendStep? then old(p.sends) + [step.now] else old(p.sends)
  {
    match step
    case SendStep(now) => var _ := p.Send(now);
    case EchoStep(seqNo, sendNano, now) => p.Echo(seqNo, sendNano, now);
    case SweepStep(now, during) => PerformSweep(p, now, during);
    case FlushStep(during) => p.FlushRun(during);
  }

  /** Any interleaving of the four steps in which send times do not decrease. */
  method Interleave(p: Prober, steps: seq<Step>) returns (ghost trace: seq<Stream>)
    requires p.Valid() && p.Content() == NO_STREAM && Rising(SendTimes(steps))
    modifies p, p.window, p.curSecond
    ensures p.Valid() && p.sends == SendTimes(steps)
    ensures IsRun(steps, trace) && trace[|steps|] == p.Content()
  {
    trace := [NO_STREAM];
    if |steps| > 0 {
      RisingStep(steps);
      trace := Interleave(p, steps[..|steps| - 1]);
      ghost var before := trace;
      Perform(p, steps[|steps| - 1]);
      trace := before + [p.Content()];
      assert trace[..|steps|] == before;
    }
  }

  // ----- what the log says of each packet -----

  /** The round-trip time of the last echo of packet n that arrived while n was in flight. */
  ghost function LastEcho(steps: seq<Step>, trace: seq<Stream>, n: int): Option<int>
    requires |trace| == |steps| + 1
  {
    if |steps| == 0 then None
    else
      var step, b := steps[|steps| - 1], trace[|steps| - 1];
      if step.EchoStep? && step.seqNo == n && b.next <= n < b.lastSeq then Some(step.now - step.sendNano)
      else LastEcho(steps[..|steps| - 1], trace[..|steps|], n)
  }

  /** The maps hold packets in flight, and the log the others. */
  ghost predicate StreamSound(b: Stream) {
    && 1 <= b.next <= b.lastSeq
    && (forall s :: s in b.sent <==> b.next <= s < b.lastSeq)
    && (forall s :: s in b.rtts ==> b.next <= s < b.lastSeq)
  }

  /** The packet is received exactly if it was echoed, with the round-trip time of that echo. */
  ghost predicate Judged(o: Outcome, echo: Option<int>) {
    if echo.Some? then o.Received? && o.rtt == echo.value else o.Lost?
  }

  ghost predicate LogJudged(b: Stream, echo: int -> Option<int>) {
    forall i :: 0 <= i < |b.log| && !b.log[i].Flushed? ==> b.log[i].seqNo < b.next && Judged(b.log[i], echo(b.log[i].seqNo))
  }

  ghost predicate EchoesKept(b: Stream, echo: int -> Option<int>) {
    forall n :: b.next <= n ==> echo(n) == if n in b.rtts then Some(b.rtts[n]) else None
  }

  /** The step is an echo of packet n, which is in flight. */
  ghost predicate IsEchoOf(b: Stream, step: Step, n: int) {
    step.EchoStep? && step.seqNo == n && b.next <= n < b.lastSeq
  }

  lemma SweepJudges(b: Stream, now: int, flags: int -> bool, b': Stream, echo: int -> Option<int>)
    requires StreamSound(b) && EchoesKept(b, echo) && LogJudged(b, echo) && StepTo(b, SweepStep(now, flags), b')
    ensures StreamSound(b') && EchoesKept(b', echo) && LogJudged(b', echo)
  {
    VerdictsLength(b.sent, b.rtts, b.next, b'.next, flags);
    forall i | 0 <= i < |b'.log| && !b'.log[i].Flushed?
      ensures b'.log[i].seqNo < b'.next && Judged(b'.log[i], echo(b'.log[i].seqNo))
    {
      if i < |b.log| {
        assert b'.log[i] == b.log[i];
      } else {
        VerdictAt(b.sent, b.rtts, b.next, b'.next, flags, b.next + i - |b.log|);
      }
    }
  }

  lemma StepJudges(b: Stream, step: Step, b': Stream, echo: int -> Option<int>, echo': int -> Option<int>)
    requires StreamSound(b) && EchoesKept(b, echo) && LogJudged(b, echo) && StepTo(b, step, b')
    requires forall n :: echo'(n) == if IsEchoOf(b, step, n) then Some(step.now - step.sendNano) else echo(n)
    ensures StreamSound(b') && EchoesKept(b', echo') && LogJudged(b', echo')
  {
    match step
    case SendStep(_) =>
    case EchoStep(_, _, _) =>
    case SweepStep(now, flags) =>
      SweepJudges(b, now, flags, b', echo);
    case FlushStep(_) =>
  }

  ghost function EchoesOf(steps: seq<Step>, trace: seq<Stream>): int -> Option<int>
    requires |trace| == |steps| + 1
  {
    n => LastEcho(steps, trace, n)
  }

  /**
   Over every run: a packet that is not in flight any more is in the log, as received if and only if an echo of it
   arrived while it was in flight, with the round-trip time of the last such echo, and otherwise as lost.
   */
  lemma {:induction false} ReceivedMeansEchoed(steps: seq<Step>, trace: seq<Stream>)
    requires IsRun(steps, trace)
    ensures StreamSound(trace[|steps|]) && EchoesKept(trace[|steps|], EchoesOf(steps, trace))
    ensures var log := trace[|steps|].log;
      forall i :: 0 <= i < |log| && !log[i].Flushed? ==>
        && (log[i].Received? <==> LastEcho(steps, trace, log[i].seqNo).Some?)
        && (log[i].Received? ==> LastEcho(steps, trace, log[i].seqNo) == Some(log[i].rtt))
    ensures LogJudged(trace[|steps|], EchoesOf(steps, trace))
  {
    if |steps| > 0 {
      var front, earlier := steps[..|steps| - 1], trace[..|steps|];
      ReceivedMeansEchoed(front, earlier);
      StepJudges(trace[|steps| - 1], steps[|steps| - 1], trace[|steps|], EchoesOf(front, earlier), EchoesOf(steps, trace));
    }
    assert LogJudged(trace[|steps|], EchoesOf(steps, trace));
  }

  /** Some sweep found the packet more than two seconds old. */
  ghost predicate TimedOut(steps: seq<Step>, send: int) {
    exists j :: 0 <= j < |steps| && steps[j].SweepStep? && steps[j].now - send > 2_000_000_000
  }

  /** No packet is given up early. */
  lemma {:induction false} LostMeansTimedOut(steps: seq<Step>, trace: seq<Stream>, i: nat)
    requires IsRun(steps, trace) && i < |trace[|steps|].log| && trace[|steps|].log[i].Lost?
    ensures TimedOut(steps, trace[|steps|].log[i].send)
  {
    var front, step, b, b' := steps[..|steps| - 1], steps[|steps| - 1], trace[|steps| - 1], trace[|steps|];
    if i < |b.log| {
      LostMeansTimedOut(front, trace[..|steps|], i);
      var j :| 0 <= j < |front| && front[j].SweepStep? && front[j].now - b.log[i].send > 2_000_000_000;
      assert steps[j] == front[j];
    } else if step.SweepStep? {
      VerdictsLength(b.sent, b.rtts, b.next, b'.next, step.flags);
      VerdictAt(b.sent, b.rtts, b.next, b'.next, step.flags, b.next + i - |b.log|);
      assert Resolvable(b.sent, b.rtts, step.now, b.next + i - |b.log|);
      assert steps[|steps| - 1].now - b'.log[i].send > 2_000_000_000;
    }
  }

  /** What the callbacks have been handed accounts for every finalized packet. */
  ghost predicate Reported(log: seq<Outcome>, p: Setup, seconds: seq<SecondBucket>, freezes: seq<FreezeEvent>) {
    && Ascending(seconds, LastSecond(log) * 1000)
    && SentIn(seconds) + Tally(Sent, log, LastSecond(log)) == Packets(log)
    && LostIn(seconds) + Tally(LostOnes, log, LastSecond(log)) == Losses(log)
    && EachAReport(p, log, seconds, TurnsOf(log))
    && (forall t :: t in TurnsOf(log) <==> OpensSecond(log, t))
    && EachAFreeze(p, log, freezes, Gaps(log))
    && (forall g :: g in Gaps(log) <==> IsFreeze(log, g))
    && Disjoint(Gaps(log))
  }

  /**
   After any run: the log is gap-free and truthful about send times, each completed second was reported once and in
   order, no packet is missing from the reported seconds and the active one, and the freezes are the closed loss runs.
   */
  method RunProber(reflector: int, ln: real -> real, pps: int, steps: seq<Step>) returns (p: Prober, ghost trace: seq<Stream>)
    requires Rising(SendTimes(steps))
    ensures p.Valid() && IsRun(steps, trace) && trace[|steps|] == p.Content()
    ensures Gapless(p.log) && Truthful(p.log, SendTimes(steps)) && p.next == Packets(p.log) + 1
    ensures forall i :: 0 <= i < |p.log| && !p.log[i].Flushed? ==>
      && (p.log[i].Received? <==> LastEcho(steps, trace, p.log[i].seqNo).Some?)
      && (p.log[i].Received? ==> LastEcho(steps, trace, p.log[i].seqNo) == Some(p.log[i].rtt))
    ensures p.seconds == Emitted(SetupOf(reflector, ln, pps), p.log) && p.freezes == Freezes(SetupOf(reflector, ln, pps), p.log)
    ensures Reported(p.log, Setup(reflector, ln, 1_000_000_000 / if pps <= 0 then 50 else pps), p.seconds, p.freezes)
    ensures 0.0 <= p.jitterNs <= LargestChange(p.log) as real && p.jitterNs == Weighted(Changes(ReceivedRtts(p.log)))
  {
    p := new Prober(reflector, ln, pps);
    trace := Interleave(p, steps);
    ReceivedMeansEchoed(steps, trace);
    EmittedAscends(p.Settings(), p.log);
    EmittedAreReports(p.Settings(), p.log);
    PacketsAreConserved(p.Settings(), p.log);
    FreezesAreTheLossRuns(p.Settings(), p.log);
    JitterIsBounded(p.log);
    JitterIsWeighted(p.log);
  }

  /** Both packets of a run time out at once, eleven seconds apart: the first one's second is still in the ring. */
  function OldSecondSteps(flags: int -> bool): seq<Step> {
    [SendStep(SECOND), SendStep(12 * SECOND), SweepStep(15 * SECOND, flags)]
  }

  lemma SendTimesStep(steps: seq<Step>, step: Step)
    ensures SendTimes(steps + [step]) == if step.SendStep? then SendTimes(steps) + [step.now] else SendTimes(steps)
  {
    assert (steps + [step])[..|steps + [step]| - 1] == steps;
  }

  lemma OldSecondTimes(flags: int -> bool)
    ensures SendTimes(OldSecondSteps(flags)) == [SECOND, 12 * SECOND]
  {
    var first, second, sweep := SendStep(SECOND), SendStep(12 * SECOND), SweepStep(15 * SECOND, flags);
    SendTimesStep([], first);
    SendTimesStep([] + [first], second);
    SendTimesStep([] + [first] + [second], sweep);
    assert OldSecondSteps(flags) == [] + [first] + [second] + [sweep];
    assert [SECOND] + [12 * SECOND] == [SECOND, 12 * SECOND];
  }

  lemma OldSecondRises()
    ensures Rising([SECOND, 12 * SECOND])
  {
    assert [SECOND, 12 * SECOND][..1] == [SECOND];
  }

  lemma OldSecondSweep(b: Stream, flags: int -> bool, b': Stream)
    requires b == Stream([], [SECOND, 12 * SECOND], map[1 := SECOND, 2 := 12 * SECOND], map[], 1, 3)
    requires b' == Stream([Lost(1, SECOND, flags(1)), Lost(2, 12 * SECOND, flags(2))], [SECOND, 12 * SECOND], map[], map[], 3, 3)
    ensures StepTo(b, SweepStep(15 * SECOND, flags), b')
  {
    var first, second := Lost(1, SECOND, flags(1)), Lost(2, 12 * SECOND, flags(2));
    assert Verdicts(b.sent, b.rtts, 1, 2, flags) == [first];
    assert Verdicts(b.sent, b.rtts, 1, 3, flags) == [first] + [second];
  }

  /** A run after which the rolling window holds two packets, although only one was sent in the last ten seconds. */
  lemma WindowHoldsAnOldSecond(flags: int -> bool) returns (trace: seq<Stream>)
    ensures Rising(SendTimes(OldSecondSteps(flags))) && IsRun(OldSecondSteps(flags), trace)
    ensures var log := trace[3].log;
      && Stale(log, 1) && RingSum(Sent, log, 10) == 2
      && SecondsSum(Sent, log, LastSecond(log) - 9, LastSecond(log) + 1) == 1
  {
    var b1 := Stream([], [SECOND], map[1 := SECOND], map[], 1, 2);
    var b2 := Stream([], [SECOND, 12 * SECOND], map[1 := SECOND, 2 := 12 * SECOND], map[], 1, 3);
    var b3 := Stream([Lost(1, SECOND, flags(1)), Lost(2, 12 * SECOND, flags(2))], [SECOND, 12 * SECOND], map[], map[], 3, 3);
    OldSecondTimes(flags);
    OldSecondRises();
    assert [SECOND] + [12 * SECOND] == [SECOND, 12 * SECOND];
    OldSecondSweep(b2, flags, b3);
    trace := [NO_STREAM, b1, b2, b3];
    RunOfThree(OldSecondSteps(flags), trace);
    OldSecondInWindow(b3.log);
  }

  lemma RunOfThree(steps: seq<Step>, trace: seq<Stream>)
    requires |steps| == 3 && |trace| == 4 && trace[0] == NO_STREAM
    requires forall k :: 0 <= k < 3 ==> StepTo(trace[k], steps[k], trace[k + 1])
    ensures IsRun(steps, trace)
  {
    assert IsRun([], trace[..1]);
    assert steps[..1][..0] == [] && trace[..2][..1] == trace[..1];
    assert IsRun(steps[..1], trace[..2]);
    assert steps[..2][..1] == steps[..1] && trace[..3][..2] == trace[..2];
    assert IsRun(steps[..2], trace[..3]);
  }
}
