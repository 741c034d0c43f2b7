/**
 The echo reflector: a token bucket per source, created on first use and dropped when idle, and one bucket for all
 replies together. Time is in seconds since the server started; the clock does not go back.
 */
module Reflector {
  import opened Common

  // ----- token buckets as values -----

  /** A bucket holds at most cap tokens and gains rate tokens a second. */
  datatype Limit = Limit(cap: real, rate: real)

  datatype Bucket = Bucket(tokens: real, last: real)

  const IDLE := 60.0

  function Least(x: real, y: real): real { if x < y then x else y }

  /** The tokens gained over a time. */
  function Gain(rate: real, time: real): real { rate * time }

  lemma GainGrows(rate: real, time: real, more: real)
    requires 0.0 <= rate && time <= more
    ensures Gain(rate, time) <= Gain(rate, more) && Gain(rate, 0.0) == 0.0
  {
    assert Gain(rate, more) - Gain(rate, time) == rate * (more - time);
  }

  lemma GainAdds(rate: real, time: real, more: real)
    ensures Gain(rate, time + more) == Gain(rate, time) + Gain(rate, more)
  {
  }

  /** The tokens in a bucket at a time. */
  function Level(lim: Limit, b: Bucket, now: real): real {
    Least(lim.cap, b.tokens + Gain(lim.rate, now - b.last))
  }

  /** A source without a bucket will be given a full one. */
  function LevelOf(lim: Limit, m: map<string, Bucket>, ip: string, now: real): real {
    if ip in m then Level(lim, m[ip], now) else lim.cap
  }

  /** A new source has its whole burst. */
  ghost predicate SourceHasToken(lim: Limit, m: map<string, Bucket>, ip: string, now: real) {
    if ip in m then HasToken(lim, m[ip], now) else 1.0 <= lim.cap
  }

  /** The bucket after a request that found it at the given level. */
  function Spent(level: real, now: real): Bucket {
    Bucket(if level < 1.0 then level else level - 1.0, now)
  }

  function Requested(lim: Limit, m: map<string, Bucket>, ip: string, now: real): map<string, Bucket> {
    m[ip := Spent(LevelOf(lim, m, ip, now), now)]
  }

  function Swept(m: map<string, Bucket>, now: real): map<string, Bucket> {
    map ip | ip in m && now - m[ip].last <= IDLE :: m[ip]
  }

  predicate BucketSound(lim: Limit, b: Bucket, now: real) {
    0.0 <= b.tokens <= lim.cap && b.last <= now
  }

  ghost predicate Sound(lim: Limit, m: map<string, Bucket>, now: real) {
    forall ip :: ip in m ==> BucketSound(lim, m[ip], now)
  }

  /** A later level is a function of an earlier one. */
  lemma LevelLater(lim: Limit, m: map<string, Bucket>, ip: string, now: real, later: real)
    requires now <= later && 0.0 <= lim.rate
    ensures LevelOf(lim, m, ip, later) == Least(lim.cap, LevelOf(lim, m, ip, now) + Gain(lim.rate, later - now))
  {
    GainGrows(lim.rate, 0.0, later - now);
    if ip in m {
      GainAdds(lim.rate, now - m[ip].last, later - now);
      assert now - m[ip].last + (later - now) == later - m[ip].last;
    }
  }

  /** A bucket that is left alone for d seconds then holds the smaller of its cap and its tokens plus d times the rate. */
  lemma LevelAlone(lim: Limit, b: Bucket, d: real)
    ensures var level := Level(lim, b, b.last + d);
      && level <= lim.cap && level <= b.tokens + lim.rate * d
      && (level == lim.cap || level == b.tokens + lim.rate * d)
  {
    assert b.last + d - b.last == d;
  }

  /** There is a token to take: the cap allows one, and what was left plus what was gained makes one. */
  ghost predicate HasToken(lim: Limit, b: Bucket, now: real) {
    1.0 <= lim.cap && 1.0 <= b.tokens + lim.rate * (now - b.last)
  }

  lemma HasTokenIsLevel(lim: Limit, b: Bucket, now: real)
    ensures HasToken(lim, b, now) <==> 1.0 <= Level(lim, b, now)
  {
    var d := now - b.last;
    var gain := Gain(lim.rate, d);
    assert gain == lim.rate * d;
    assert HasToken(lim, b, now) <==> 1.0 <= lim.cap && 1.0 <= b.tokens + gain;
    assert Level(lim, b, now) == Least(lim.cap, b.tokens + gain);
  }

  lemma LevelSound(lim: Limit, m: map<string, Bucket>, ip: string, now: real)
    requires Sound(lim, m, now) && 0.0 <= lim.rate && 1.0 <= lim.cap
    ensures 0.0 <= LevelOf(lim, m, ip, now) <= lim.cap
  {
    if ip in m {
      GainGrows(lim.rate, 0.0, now - m[ip].last);
    }
  }

  /** A bucket that has been idle for long enough is full, so dropping it changes no level. */
  lemma SweepKeepsLevels(lim: Limit, m: map<string, Bucket>, ip: string, now: real)
    requires Sound(lim, m, now) && 0.0 <= lim.rate && lim.cap <= Gain(lim.rate, IDLE)
    ensures LevelOf(lim, Swept(m, now), ip, now) == LevelOf(lim, m, ip, now)
  {
    if ip in m && now - m[ip].last > IDLE {
      GainGrows(lim.rate, IDLE, now - m[ip].last);
    }
  }

  lemma SpentSound(lim: Limit, m: map<string, Bucket>, ip: string, now: real)
    requires Sound(lim, m, now) && 0.0 <= lim.rate && 1.0 <= lim.cap
    ensures Sound(lim, Requested(lim, m, ip, now), now)
  {
    LevelSound(lim, m, ip, now);
  }

  lemma RequestedKeepsOthers(lim: Limit, m: map<string, Bucket>, ip: string, other: string, now: real)
    ensures LevelOf(lim, Requested(lim, m, ip, now), other, now) ==
      if other == ip then Least(lim.cap, Spent(LevelOf(lim, m, ip, now), now).tokens) else LevelOf(lim, m, other, now)
  {
    assert Gain(lim.rate, now - now) == 0.0;
  }

  // ----- counting replies -----

  datatype Address = Address(ip: string, port: int)

  type Token = seq<int>

  datatype Packet = Hello | Probe(token: Token, body: seq<int>) | Other

  datatype Reply =
    | Granted(to: Address, at: real, token: Token)
    | Echoed(to: Address, at: real, packet: Packet)

  /** Replies to one source, or to all sources. */
  predicate Matches(r: Reply, key: Option<string>) {
    key.None? || r.to.ip == key.value
  }

  /** The number of matching replies at or after a time. */
  function Since(replies: seq<Reply>, key: Option<string>, from: real): nat {
    if |replies| == 0 then 0
    else
      var r := replies[|replies| - 1];
      Since(replies[..|replies| - 1], key, from) + if Matches(r, key) && from <= r.at then 1 else 0
  }

  /** The number of matching replies in a closed time interval. */
  function Within(replies: seq<Reply>, key: Option<string>, from: real, to: real): nat {
    if |replies| == 0 then 0
    else
      var r := replies[|replies| - 1];
      Within(replies[..|replies| - 1], key, from, to) + if Matches(r, key) && from <= r.at <= to then 1 else 0
  }

  ghost predicate Ordered(replies: seq<Reply>, now: real) {
    |replies| > 0 ==>
      var r := replies[|replies| - 1];
      r.at <= now && Ordered(replies[..|replies| - 1], r.at)
  }

  /** Counting from any time on, the replies and the tokens left stay below what the bucket can have held. */
  ghost predicate Paced(lim: Limit, replies: seq<Reply>, key: Option<string>, level: real, now: real) {
    forall from: real :: from <= now ==> Since(replies, key, from) as real + level <= lim.cap + Gain(lim.rate, now - from)
  }

  /** At each reply the count was paced. */
  ghost predicate AlwaysPaced(lim: Limit, replies: seq<Reply>, key: Option<string>) {
    |replies| > 0 ==>
      && AlwaysPaced(lim, replies[..|replies| - 1], key)
      && Paced(lim, replies, key, 0.0, replies[|replies| - 1].at)
  }

  lemma {:induction false} NothingInTheFuture(replies: seq<Reply>, key: Option<string>, now: real, from: real)
    requires Ordered(replies, now) && now < from
    ensures Since(replies, key, from) == 0
  {
    if |replies| > 0 {
      NothingInTheFuture(replies[..|replies| - 1], key, replies[|replies| - 1].at, from);
    }
  }

  lemma {:induction false} WithinIsSince(replies: seq<Reply>, key: Option<string>, from: real, to: real)
    requires Ordered(replies, to)
    ensures Within(replies, key, from, to) == Since(replies, key, from)
  {
    if |replies| > 0 {
      OrderedLater(replies[..|replies| - 1], replies[|replies| - 1].at, to);
      WithinIsSince(replies[..|replies| - 1], key, from, to);
    }
  }

  lemma OrderedLater(replies: seq<Reply>, now: real, later: real)
    requires Ordered(replies, now) && now <= later
    ensures Ordered(replies, later)
  {
  }

  lemma {:induction false} IntervalGain(lim: Limit, replies: seq<Reply>, key: Option<string>, now: real, from: real, to: real)
    requires Ordered(replies, now) && AlwaysPaced(lim, replies, key)
    requires from <= to && 0.0 <= lim.rate && 0.0 <= lim.cap
    ensures Within(replies, key, from, to) as real <= lim.cap + Gain(lim.rate, to - from)
  {
    GainGrows(lim.rate, 0.0, to - from);
    if |replies| > 0 {
      var r := replies[|replies| - 1];
      if r.at <= to {
        WithinIsSince(replies, key, from, to);
        if from <= r.at {
          GainGrows(lim.rate, r.at - from, to - from);
        } else {
          NothingInTheFuture(replies, key, r.at, from);
        }
      } else {
        IntervalGain(lim, replies[..|replies| - 1], key, r.at, from, to);
      }
    }
  }

  /** In every time interval, the replies are at most the burst plus the rate times the length of the interval. */
  lemma IntervalBound(lim: Limit, replies: seq<Reply>, key: Option<string>, now: real, from: real, to: real)
    requires Ordered(replies, now) && AlwaysPaced(lim, replies, key)
    requires from <= to && 0.0 <= lim.rate && 0.0 <= lim.cap
    ensures Within(replies, key, from, to) as real <= lim.cap + lim.rate * (to - from)
  {
    IntervalGain(lim, replies, key, now, from, to);
    var d := to - from;
    var gain := Gain(lim.rate, d);
    assert gain == lim.rate * d;
  }

  // ----- the ledger that relates buckets and replies -----

  predicate LimitSound(lim: Limit) {
    1.0 <= lim.cap && 0.0 <= lim.rate
  }

  /** The tokens of a bucket pay for the replies that match its key. */
  ghost predicate Pays(lim: Limit, replies: seq<Reply>, key: Option<string>, level: real, now: real) {
    0.0 <= level <= lim.cap && Paced(lim, replies, key, level, now) && AlwaysPaced(lim, replies, key)
  }

  lemma PaysLater(lim: Limit, replies: seq<Reply>, key: Option<string>, level: real, now: real, level': real, later: real)
    requires LimitSound(lim) && Ordered(replies, now) && now <= later
    requires Pays(lim, replies, key, level, now)
    requires 0.0 <= level' <= lim.cap && level' <= level + Gain(lim.rate, later - now)
    ensures Pays(lim, replies, key, level', later)
  {
    forall from: real | from <= later
      ensures Since(replies, key, from) as real + level' <= lim.cap + Gain(lim.rate, later - from)
    {
      if from <= now {
        GainAdds(lim.rate, now - from, later - now);
        assert now - from + (later - now) == later - from;
      } else {
        NothingInTheFuture(replies, key, now, from);
        GainGrows(lim.rate, 0.0, later - from);
      }
    }
  }

  /** A reply is paid for by one token of every bucket it matches. */
  lemma PaysForReply(lim: Limit, replies: seq<Reply>, key: Option<string>, level: real, r: Reply, longer: seq<Reply>,
                     level': real)
    requires Pays(lim, replies, key, level, r.at) && longer == replies + [r]
    requires 0.0 <= level' && level' <= level - if Matches(r, key) then 1.0 else 0.0
    ensures Pays(lim, longer, key, level', r.at)
  {
    assert longer[..|longer| - 1] == replies;
    forall from: real | from <= r.at
      ensures Since(longer, key, from) as real + level' <= lim.cap + Gain(lim.rate, r.at - from)
    {
      assert Since(replies, key, from) as real + level <= lim.cap + Gain(lim.rate, r.at - from);
    }
  }

  ghost predicate EachPays(lim: Limit, m: map<string, Bucket>, replies: seq<Reply>, now: real) {
    forall ip: string :: Pays(lim, replies, Some(ip), LevelOf(lim, m, ip, now), now)
  }

  /** The source buckets are sound and pay for every reply. */
  ghost predicate SourceLedger(lim: Limit, m: map<string, Bucket>, replies: seq<Reply>, now: real) {
    LimitSound(lim) && Sound(lim, m, now) && Ordered(replies, now) && EachPays(lim, m, replies, now)
  }

  ghost predicate GlobalLedger(lim: Limit, b: Bucket, replies: seq<Reply>, now: real) {
    LimitSound(lim) && BucketSound(lim, b, now) && Ordered(replies, now) && Pays(lim, replies, None, Level(lim, b, now), now)
  }

  /** Before the first reply full buckets pay for everything. */
  lemma NothingSent(lim: Limit, now: real)
    requires LimitSound(lim)
    ensures SourceLedger(lim, map[], [], now)
    ensures GlobalLedger(lim, Bucket(lim.cap, now), [], now)
  {
    assert Gain(lim.rate, now - now) == 0.0;
    forall key: Option<string> ensures Pays(lim, [], key, lim.cap, now) {
      forall from: real | from <= now ensures Since([], key, from) as real + lim.cap <= lim.cap + Gain(lim.rate, now - from) {
        GainGrows(lim.rate, 0.0, now - from);
      }
    }
  }

  lemma SourcesLater(lim: Limit, m: map<string, Bucket>, replies: seq<Reply>, now: real, later: real)
    requires SourceLedger(lim, m, replies, now) && now <= later
    ensures SourceLedger(lim, m, replies, later)
  {
    OrderedLater(replies, now, later);
    forall ip: string ensures Pays(lim, replies, Some(ip), LevelOf(lim, m, ip, later), later) {
      LevelLater(lim, m, ip, now, later);
      LevelSound(lim, m, ip, later);
      PaysLater(lim, replies, Some(ip), LevelOf(lim, m, ip, now), now, LevelOf(lim, m, ip, later), later);
    }
  }

  lemma GlobalLater(lim: Limit, b: Bucket, replies: seq<Reply>, now: real, later: real)
    requires GlobalLedger(lim, b, replies, now) && now <= later
    ensures GlobalLedger(lim, b, replies, later)
  {
    OrderedLater(replies, now, later);
    var m := map["" := b];
    assert m[""] == b;
    LevelLater(lim, m, "", now, later);
    LevelSound(lim, m, "", later);
    PaysLater(lim, replies, None, Level(lim, b, now), now, Level(lim, b, later), later);
  }

  lemma SpentLevel(lim: Limit, level: real, now: real)
    requires 0.0 <= level <= lim.cap
    ensures BucketSound(lim, Spent(level, now), now)
    ensures Level(lim, Spent(level, now), now) == if level < 1.0 then level else level - 1.0
  {
    assert Gain(lim.rate, now - now) == 0.0;
  }

  /** A request that is refused takes no token from its source. */
  lemma SourceRefuses(lim: Limit, m: map<string, Bucket>, replies: seq<Reply>, ip: string, now: real)
    requires SourceLedger(lim, m, replies, now) && LevelOf(lim, m, ip, now) < 1.0
    ensures SourceLedger(lim, Requested(lim, m, ip, now), replies, now)
  {
    LevelSound(lim, m, ip, now);
    SpentSound(lim, m, ip, now);
    SpentLevel(lim, LevelOf(lim, m, ip, now), now);
    forall other: string ensures LevelOf(lim, Requested(lim, m, ip, now), other, now) == LevelOf(lim, m, other, now) {
      RequestedKeepsOthers(lim, m, ip, other, now);
    }
  }

  lemma SourceGrants(lim: Limit, m: map<string, Bucket>, replies: seq<Reply>, r: Reply, longer: seq<Reply>)
    requires SourceLedger(lim, m, replies, r.at) && 1.0 <= LevelOf(lim, m, r.to.ip, r.at) && longer == replies + [r]
    ensures SourceLedger(lim, Requested(lim, m, r.to.ip, r.at), longer, r.at)
  {
    assert longer[..|longer| - 1] == replies;
    var ip, now := r.to.ip, r.at;
    SpentSound(lim, m, ip, now);
    LevelSound(lim, m, ip, now);
    SpentLevel(lim, LevelOf(lim, m, ip, now), now);
    forall other: string
      ensures Pays(lim, longer, Some(other), LevelOf(lim, Requested(lim, m, ip, now), other, now), now)
    {
      RequestedKeepsOthers(lim, m, ip, other, now);
      PaysForReply(lim, replies, Some(other), LevelOf(lim, m, other, now), r, longer, LevelOf(lim, Requested(lim, m, ip, now), other, now));
    }
  }

  /** The global bucket may lose a token without a reply: when the source has none left. */
  lemma GlobalSpends(lim: Limit, b: Bucket, replies: seq<Reply>, now: real)
    requires GlobalLedger(lim, b, replies, now)
    ensures GlobalLedger(lim, Spent(Level(lim, b, now), now), replies, now)
  {
    SpentLevel(lim, Level(lim, b, now), now);
    assert Gain(lim.rate, now - now) == 0.0;
    PaysLater(lim, replies, None, Level(lim, b, now), now, Level(lim, Spent(Level(lim, b, now), now), now), now);
  }

  lemma GlobalGrants(lim: Limit, b: Bucket, replies: seq<Reply>, r: Reply, longer: seq<Reply>)
    requires GlobalLedger(lim, b, replies, r.at) && 1.0 <= Level(lim, b, r.at) && longer == replies + [r]
    ensures GlobalLedger(lim, Spent(Level(lim, b, r.at), r.at), longer, r.at)
  {
    assert longer[..|longer| - 1] == replies;
    SpentLevel(lim, Level(lim, b, r.at), r.at);
    PaysForReply(lim, replies, None, Level(lim, b, r.at), r, longer, Level(lim, Spent(Level(lim, b, r.at), r.at), r.at));
  }

  /** A request for the reply r, by the rules of both buckets. */
  lemma LedgerStep(src: Limit, all: Limit, m: map<string, Bucket>, b: Bucket, replies: seq<Reply>, r: Reply, longer: seq<Reply>)
    requires SourceLedger(src, m, replies, r.at) && GlobalLedger(all, b, replies, r.at) && longer == replies + [r]
    ensures var first := 1.0 <= Level(all, b, r.at);
      var ok := first && 1.0 <= LevelOf(src, m, r.to.ip, r.at);
      var after := if ok then longer else replies;
      && SourceLedger(src, if first then Requested(src, m, r.to.ip, r.at) else m, after, r.at)
      && GlobalLedger(all, Spent(Level(all, b, r.at), r.at), after, r.at)
  {
    if 1.0 > Level(all, b, r.at) {
      GlobalSpends(all, b, replies, r.at);
    } else if 1.0 > LevelOf(src, m, r.to.ip, r.at) {
      GlobalSpends(all, b, replies, r.at);
      SourceRefuses(src, m, replies, r.to.ip, r.at);
    } else {
      GlobalGrants(all, b, replies, r, longer);
      SourceGrants(src, m, replies, r, longer);
    }
  }

  lemma SweepKeepsLedger(lim: Limit, m: map<string, Bucket>, replies: seq<Reply>, now: real)
    requires SourceLedger(lim, m, replies, now) && lim.cap <= Gain(lim.rate, IDLE)
    ensures SourceLedger(lim, Swept(m, now), replies, now)
  {
    forall ip: string ensures LevelOf(lim, Swept(m, now), ip, now) == LevelOf(lim, m, ip, now) {
      SweepKeepsLevels(lim, m, ip, now);
    }
  }

  // ----- what the server does, over whole runs -----

  datatype Config = Config(perIP: Limit, all: Limit, tokenFor: Address -> Token)

  predicate ConfigSound(cfg: Config) {
    LimitSound(cfg.all) && LimitSound(cfg.perIP) && cfg.perIP.cap <= Gain(cfg.perIP.rate, IDLE)
  }

  /** The buckets of all sources, the global one, and everything that was sent. */
  datatype Meter = Meter(sources: map<string, Bucket>, global: Bucket, replies: seq<Reply>)

  datatype Arrival = Datagram(pkt: Packet, src: Address, at: real) | Minute(at: real)

  /** A greeting, or a probe that carries the token of its source. Nothing else reaches the buckets. */
  predicate Wanted(cfg: Config, pkt: Packet, src: Address) {
    pkt.Hello? || (pkt.Probe? && pkt.token == cfg.tokenFor(src))
  }

  function Answer(cfg: Config, pkt: Packet, src: Address, now: real): Reply {
    if pkt.Hello? then Granted(src, now, cfg.tokenFor(src)) else Echoed(src, now, pkt)
  }

  /** The global bucket is asked first, and loses its token even if the source is then refused. */
  function Asked(cfg: Config, b: Meter, r: Reply): Meter {
    var first := 1.0 <= Level(cfg.all, b.global, r.at);
    var second := first && 1.0 <= LevelOf(cfg.perIP, b.sources, r.to.ip, r.at);
    Meter(if first then Requested(cfg.perIP, b.sources, r.to.ip, r.at) else b.sources,
          Spent(Level(cfg.all, b.global, r.at), r.at),
          if second then b.replies + [r] else b.replies)
  }

  function Next(cfg: Config, b: Meter, a: Arrival): Meter {
    match a
    case Datagram(pkt, src, at) => if Wanted(cfg, pkt, src) then Asked(cfg, b, Answer(cfg, pkt, src, at)) else b
    case Minute(at) => b.(sources := Swept(b.sources, at))
  }

  function After(cfg: Config, start: real, arrivals: seq<Arrival>): Meter {
    if |arrivals| == 0 then Meter(map[], Bucket(cfg.all.cap, start), [])
    else Next(cfg, After(cfg, start, arrivals[..|arrivals| - 1]), arrivals[|arrivals| - 1])
  }

  function LatestArrival(arrivals: seq<Arrival>, start: real): real {
    if |arrivals| == 0 then start else arrivals[|arrivals| - 1].at
  }

  ghost predicate InTime(arrivals: seq<Arrival>, start: real) {
    |arrivals| > 0 ==>
      InTime(arrivals[..|arrivals| - 1], start) && LatestArrival(arrivals[..|arrivals| - 1], start) <= arrivals[|arrivals| - 1].at
  }

  ghost predicate Ledger(cfg: Config, b: Meter, now: real) {
    SourceLedger(cfg.perIP, b.sources, b.replies, now) && GlobalLedger(cfg.all, b.global, b.replies, now)
  }

  lemma LedgerLater(cfg: Config, b: Meter, now: real, later: real)
    requires Ledger(cfg, b, now) && now <= later
    ensures Ledger(cfg, b, later)
  {
    SourcesLater(cfg.perIP, b.sources, b.replies, now, later);
    GlobalLater(cfg.all, b.global, b.replies, now, later);
  }

  /** The buckets pay for every reply, at every point of every run. */
  lemma {:induction false} RunKeepsLedger(cfg: Config, start: real, arrivals: seq<Arrival>)
    requires ConfigSound(cfg) && InTime(arrivals, start)
    ensures Ledger(cfg, After(cfg, start, arrivals), LatestArrival(arrivals, start))
  {
    if |arrivals| == 0 {
      NothingSent(cfg.perIP, start);
      NothingSent(cfg.all, start);
    } else {
      var front, a := arrivals[..|arrivals| - 1], arrivals[|arrivals| - 1];
      RunKeepsLedger(cfg, start, front);
      var b := After(cfg, start, front);
      LedgerLater(cfg, b, LatestArrival(front, start), a.at);
      match a
      case Datagram(pkt, src, at) =>
        var r := Answer(cfg, pkt, src, at);
        LedgerStep(cfg.perIP, cfg.all, b.sources, b.global, b.replies, r, b.replies + [r]);
      case Minute(at) =>
        SweepKeepsLedger(cfg.perIP, b.sources, b.replies, at);
    }
  }

  /** The replies that match a key are at most a burst plus the rate times the length of the interval. */
  ghost predicate Limited(burst: real, rate: real, replies: seq<Reply>, key: Option<string>) {
    forall from: real, to: real :: from <= to ==> Within(replies, key, from, to) as real <= burst + rate * (to - from)
  }

  lemma PaysIsLimited(lim: Limit, replies: seq<Reply>, key: Option<string>, now: real)
    requires LimitSound(lim) && Ordered(replies, now) && AlwaysPaced(lim, replies, key)
    ensures Limited(lim.cap, lim.rate, replies, key)
  {
    forall from: real, to: real | from <= to
      ensures Within(replies, key, from, to) as real <= lim.cap + lim.rate * (to - from)
    {
      IntervalBound(lim, replies, key, now, from, to);
    }
  }

  /**
   Whatever arrives, and however often idle sources are swept: in every time interval each source, and all sources
   together, get at most a burst plus the rate times the length of the interval.
   */
  lemma RepliesAreLimited(cfg: Config, start: real, arrivals: seq<Arrival>, ip: string)
    requires ConfigSound(cfg) && InTime(arrivals, start)
    ensures Limited(cfg.perIP.cap, cfg.perIP.rate, After(cfg, start, arrivals).replies, Some(ip))
    ensures Limited(cfg.all.cap, cfg.all.rate, After(cfg, start, arrivals).replies, None)
  {
    var b, now := After(cfg, start, arrivals), LatestArrival(arrivals, start);
    RunKeepsLedger(cfg, start, arrivals);
    assert Pays(cfg.perIP, b.replies, Some(ip), LevelOf(cfg.perIP, b.sources, ip, now), now);
    PaysIsLimited(cfg.perIP, b.replies, Some(ip), now);
    PaysIsLimited(cfg.all, b.replies, None, now);
  }

  /** Tokens and echoes go to the address they belong to. */
  ghost predicate Honest(replies: seq<Reply>, tokenFor: Address -> Token) {
    |replies| > 0 ==>
      && Honest(replies[..|replies| - 1], tokenFor)
      && match replies[|replies| - 1]
         case Granted(to, _, token) => token == tokenFor(to)
         case Echoed(to, _, packet) => packet.Probe? && packet.token == tokenFor(to)
  }

  lemma {:induction false} RepliesAreHonest(cfg: Config, start: real, arrivals: seq<Arrival>)
    ensures Honest(After(cfg, start, arrivals).replies, cfg.tokenFor)
  {
    if |arrivals| > 0 {
      RepliesAreHonest(cfg, start, arrivals[..|arrivals| - 1]);
      var replies := After(cfg, start, arrivals).replies;
      if |replies| > 0 {
        assert replies[..|replies| - 1] + [replies[|replies| - 1]] == replies;
      }
    }
  }

  // ----- who is answered -----

  /** A lower bound: some interval that ends now has used up all that the bucket does not hold. */
  ghost predicate Tight(lim: Limit, replies: seq<Reply>, key: Option<string>, level: real, now: real) {
    exists from: real :: from <= now && Since(replies, key, from) as real + level == lim.cap + Gain(lim.rate, now - from)
  }

  lemma TightAt(lim: Limit, replies: seq<Reply>, key: Option<string>, level: real, now: real, from: real)
    requires from <= now && Since(replies, key, from) as real + level == lim.cap + Gain(lim.rate, now - from)
    ensures Tight(lim, replies, key, level, now)
  {
  }

  lemma TightLater(lim: Limit, replies: seq<Reply>, key: Option<string>, level: real, now: real, later: real)
    requires Tight(lim, replies, key, level, now) && Ordered(replies, now) && level <= lim.cap && now <= later
    ensures Tight(lim, replies, key, Least(lim.cap, level + Gain(lim.rate, later - now)), later)
  {
    var from: real :| from <= now && Since(replies, key, from) as real + level == lim.cap + Gain(lim.rate, now - from);
    if now < later && lim.cap <= level + Gain(lim.rate, later - now) {
      NothingInTheFuture(replies, key, now, later);
      assert Gain(lim.rate, later - later) == 0.0;
      TightAt(lim, replies, key, lim.cap, later, later);
    } else {
      GainAdds(lim.rate, now - from, later - now);
      assert now - from + (later - now) == later - from;
      TightAt(lim, replies, key, Least(lim.cap, level + Gain(lim.rate, later - now)), later, from);
    }
  }

  lemma TightReply(lim: Limit, replies: seq<Reply>, key: Option<string>, level: real, r: Reply, longer: seq<Reply>)
    requires Tight(lim, replies, key, level, r.at) && longer == replies + [r]
    ensures Tight(lim, longer, key, level - if Matches(r, key) then 1.0 else 0.0, r.at)
  {
    assert longer[..|longer| - 1] == replies;
    var from: real :| from <= r.at && Since(replies, key, from) as real + level == lim.cap + Gain(lim.rate, r.at - from);
    TightAt(lim, longer, key, level - if Matches(r, key) then 1.0 else 0.0, r.at, from);
  }

  /** A request, answered or refused, leaves every source's bucket tight. */
  lemma AskedIsTight(cfg: Config, b: Meter, r: Reply, ip: string, level: real)
    requires level == LevelOf(cfg.perIP, b.sources, ip, r.at) <= cfg.perIP.cap
    requires Tight(cfg.perIP, b.replies, Some(ip), level, r.at)
    ensures var b' := Asked(cfg, b, r); Tight(cfg.perIP, b'.replies, Some(ip), LevelOf(cfg.perIP, b'.sources, ip, r.at), r.at)
  {
    var b' := Asked(cfg, b, r);
    if 1.0 <= Level(cfg.all, b.global, r.at) {
      RequestedKeepsOthers(cfg.perIP, b.sources, r.to.ip, ip, r.at);
      var level' := LevelOf(cfg.perIP, b'.sources, ip, r.at);
      if 1.0 <= LevelOf(cfg.perIP, b.sources, r.to.ip, r.at) {
        TightReply(cfg.perIP, b.replies, Some(ip), level, r, b'.replies);
        assert level' == level - if Matches(r, Some(ip)) then 1.0 else 0.0;
      } else {
        assert level' == level;
      }
    }
  }

  lemma {:induction false} RunIsTight(cfg: Config, start: real, arrivals: seq<Arrival>, ip: string)
    requires ConfigSound(cfg) && InTime(arrivals, start)
    ensures var b, now := After(cfg, start, arrivals), LatestArrival(arrivals, start);
      Tight(cfg.perIP, b.replies, Some(ip), LevelOf(cfg.perIP, b.sources, ip, now), now)
  {
    if |arrivals| == 0 {
      assert Gain(cfg.perIP.rate, start - start) == 0.0;
      TightAt(cfg.perIP, [], Some(ip), cfg.perIP.cap, start, start);
    } else {
      var front, a := arrivals[..|arrivals| - 1], arrivals[|arrivals| - 1];
      RunIsTight(cfg, start, front, ip);
      TightAtArrival(cfg, start, front, ip, a.at);
      var b := After(cfg, start, front);
      match a
      case Datagram(pkt, src, at) =>
        LevelSound(cfg.perIP, b.sources, ip, at);
        AskedIsTight(cfg, b, Answer(cfg, pkt, src, at), ip, LevelOf(cfg.perIP, b.sources, ip, at));
      case Minute(at) =>
        SweepKeepsLevels(cfg.perIP, b.sources, ip, at);
    }
  }

  /** Until the next arrival nothing but time changes. */
  lemma TightAtArrival(cfg: Config, start: real, arrivals: seq<Arrival>, ip: string, at: real)
    requires ConfigSound(cfg) && InTime(arrivals, start) && LatestArrival(arrivals, start) <= at
    requires var b, now := After(cfg, start, arrivals), LatestArrival(arrivals, start);
      Tight(cfg.perIP, b.replies, Some(ip), LevelOf(cfg.perIP, b.sources, ip, now), now)
    ensures var b := After(cfg, start, arrivals);
      Ledger(cfg, b, at) && Tight(cfg.perIP, b.replies, Some(ip), LevelOf(cfg.perIP, b.sources, ip, at), at)
  {
    var b, now := After(cfg, start, arrivals), LatestArrival(arrivals, start);
    RunKeepsLedger(cfg, start, arrivals);
    LedgerLater(cfg, b, now, at);
    LevelLater(cfg.perIP, b.sources, ip, now, at);
    LevelSound(cfg.perIP, b.sources, ip, now);
    TightLater(cfg.perIP, b.replies, Some(ip), LevelOf(cfg.perIP, b.sources, ip, now), now, at);
  }

  /** With one more reply now, the source stays within its limit in every interval that ends now. */
  ghost predicate MayHaveOneMore(lim: Limit, replies: seq<Reply>, ip: string, now: real) {
    forall from: real :: from <= now ==> HasRoom(lim, replies, ip, now, from)
  }

  ghost predicate HasRoom(lim: Limit, replies: seq<Reply>, ip: string, now: real, from: real) {
    Within(replies, Some(ip), from, now) as real + 1.0 <= lim.cap + lim.rate * (now - from)
  }

  /** Room in one interval, in terms of the bucket. */
  lemma RoomAt(lim: Limit, replies: seq<Reply>, ip: string, now: real, from: real)
    requires Ordered(replies, now)
    ensures HasRoom(lim, replies, ip, now, from) <==>
      Since(replies, Some(ip), from) as real + 1.0 <= lim.cap + Gain(lim.rate, now - from)
  {
    var d := now - from;
    var gain := Gain(lim.rate, d);
    assert gain == lim.rate * d;
    WithinIsSince(replies, Some(ip), from, now);
  }

  lemma TokenMakesRoom(lim: Limit, replies: seq<Reply>, ip: string, level: real, now: real, from: real)
    requires Ordered(replies, now) && Paced(lim, replies, Some(ip), level, now) && 1.0 <= level && from <= now
    ensures HasRoom(lim, replies, ip, now, from)
  {
    RoomAt(lim, replies, ip, now, from);
    assert Since(replies, Some(ip), from) as real + level <= lim.cap + Gain(lim.rate, now - from);
  }

  /** A source that has a token stays within its limit with one more reply. */
  lemma TokenIsRoom(lim: Limit, replies: seq<Reply>, ip: string, level: real, now: real)
    requires Ordered(replies, now) && Paced(lim, replies, Some(ip), level, now) && 1.0 <= level
    ensures MayHaveOneMore(lim, replies, ip, now)
  {
    forall from: real | from <= now ensures HasRoom(lim, replies, ip, now, from) {
      TokenMakesRoom(lim, replies, ip, level, now, from);
    }
  }

  lemma FullAt(lim: Limit, replies: seq<Reply>, ip: string, level: real, now: real, from: real)
    requires Ordered(replies, now) && from <= now && level < 1.0
    requires Since(replies, Some(ip), from) as real + level == lim.cap + Gain(lim.rate, now - from)
    ensures !HasRoom(lim, replies, ip, now, from)
  {
    RoomAt(lim, replies, ip, now, from);
  }

  /** And one that has none would exceed it. */
  lemma NoTokenNoRoom(lim: Limit, replies: seq<Reply>, ip: string, level: real, now: real)
    requires Ordered(replies, now) && Tight(lim, replies, Some(ip), level, now) && level < 1.0
    ensures !MayHaveOneMore(lim, replies, ip, now)
  {
    var from: real :| from <= now && Since(replies, Some(ip), from) as real + level == lim.cap + Gain(lim.rate, now - from);
    FullAt(lim, replies, ip, level, now, from);
  }

  /**
   Over every run, a greeting or a probe with its source's token is answered if and only if the global bucket has a
   token and one more reply keeps the source within its limit in every interval that ends with it. Any other packet
   changes nothing.
   */
  lemma AnsweredIfAndOnlyIf(cfg: Config, start: real, arrivals: seq<Arrival>, pkt: Packet, src: Address, at: real)
    requires ConfigSound(cfg) && InTime(arrivals, start) && LatestArrival(arrivals, start) <= at
    ensures var b, b' := After(cfg, start, arrivals), After(cfg, start, arrivals + [Datagram(pkt, src, at)]);
      if pkt.Hello? || (pkt.Probe? && pkt.token == cfg.tokenFor(src)) then
        b'.replies ==
          if !(HasToken(cfg.all, b.global, at) && MayHaveOneMore(cfg.perIP, b.replies, src.ip, at)) then b.replies
          else if pkt.Hello? then b.replies + [Granted(src, at, cfg.tokenFor(src))]
          else b.replies + [Echoed(src, at, pkt)]
      else b' == b
  {
    var b := After(cfg, start, arrivals);
    assert (arrivals + [Datagram(pkt, src, at)])[..|arrivals|] == arrivals;
    RunIsTight(cfg, start, arrivals, src.ip);
    TightAtArrival(cfg, start, arrivals, src.ip, at);
    HasTokenIsLevel(cfg.all, b.global, at);
    assert Pays(cfg.perIP, b.replies, Some(src.ip), LevelOf(cfg.perIP, b.sources, src.ip, at), at);
    var level := LevelOf(cfg.perIP, b.sources, src.ip, at);
    if 1.0 <= level {
      TokenIsRoom(cfg.perIP, b.replies, src.ip, level, at);
    } else {
      NoTokenNoRoom(cfg.perIP, b.replies, src.ip, level, at);
    }
  }

  /** The greetings and valid probes, from any source, at or after a time. */
  function RequestsSince(cfg: Config, arrivals: seq<Arrival>, from: real): nat {
    if |arrivals| == 0 then 0
    else
      var before := RequestsSince(cfg, arrivals[..|arrivals| - 1], from);
      match arrivals[|arrivals| - 1]
      case Datagram(Hello, _, at) => if from <= at then before + 1 else before
      case Datagram(Probe(token, _), src, at) => if from <= at && token == cfg.tokenFor(src) then before + 1 else before
      case _ => before
  }

  lemma {:induction false} NoFutureRequests(cfg: Config, arrivals: seq<Arrival>, start: real, from: real)
    requires InTime(arrivals, start) && LatestArrival(arrivals, start) < from
    ensures RequestsSince(cfg, arrivals, from) == 0
  {
    if |arrivals| > 0 {
      NoFutureRequests(cfg, arrivals[..|arrivals| - 1], start, from);
    }
  }

  /** The global bucket loses at most one token for every request. */
  ghost predicate GlobalTight(cfg: Config, arrivals: seq<Arrival>, level: real, now: real) {
    exists from: real :: from <= now && RequestsSince(cfg, arrivals, from) as real + level >= cfg.all.cap + Gain(cfg.all.rate, now - from)
  }

  lemma GlobalTightAt(cfg: Config, arrivals: seq<Arrival>, level: real, now: real, from: real)
    requires from <= now && RequestsSince(cfg, arrivals, from) as real + level >= cfg.all.cap + Gain(cfg.all.rate, now - from)
    ensures GlobalTight(cfg, arrivals, level, now)
  {
  }

  lemma GlobalTightLater(cfg: Config, start: real, arrivals: seq<Arrival>, b: Bucket, now: real, later: real)
    requires ConfigSound(cfg) && InTime(arrivals, start) && now == LatestArrival(arrivals, start) <= later
    requires GlobalTight(cfg, arrivals, Level(cfg.all, b, now), now)
    ensures GlobalTight(cfg, arrivals, Level(cfg.all, b, later), later)
  {
    var from: real :| from <= now &&
      RequestsSince(cfg, arrivals, from) as real + Level(cfg.all, b, now) >= cfg.all.cap + Gain(cfg.all.rate, now - from);
    var m := map["" := b];
    assert m[""] == b;
    LevelLater(cfg.all, m, "", now, later);
    if now < later && cfg.all.cap <= Level(cfg.all, b, now) + Gain(cfg.all.rate, later - now) {
      NoFutureRequests(cfg, arrivals, start, later);
      assert Gain(cfg.all.rate, later - later) == 0.0;
      GlobalTightAt(cfg, arrivals, cfg.all.cap, later, later);
    } else {
      GainAdds(cfg.all.rate, now - from, later - now);
      assert now - from + (later - now) == later - from;
      GlobalTightAt(cfg, arrivals, Level(cfg.all, b, later), later, from);
    }
  }

  lemma RequestsStep(cfg: Config, arrivals: seq<Arrival>, a: Arrival, longer: seq<Arrival>, from: real)
    requires longer == arrivals + [a] && from <= a.at
    ensures RequestsSince(cfg, longer, from) ==
      RequestsSince(cfg, arrivals, from) + if a.Datagram? && Wanted(cfg, a.pkt, a.src) then 1 else 0
  {
    assert longer[..|longer| - 1] == arrivals;
  }

  /** An arrival costs the global bucket at most one token, and none if it is no request. */
  lemma GlobalLoses(cfg: Config, b: Meter, a: Arrival)
    requires 0.0 <= Level(cfg.all, b.global, a.at) <= cfg.all.cap
    ensures Level(cfg.all, Next(cfg, b, a).global, a.at) >=
      Level(cfg.all, b.global, a.at) - if a.Datagram? && Wanted(cfg, a.pkt, a.src) then 1.0 else 0.0
  {
    SpentLevel(cfg.all, Level(cfg.all, b.global, a.at), a.at);
  }

  lemma GlobalTightStep(cfg: Config, arrivals: seq<Arrival>, a: Arrival, longer: seq<Arrival>, level: real, level': real)
    requires longer == arrivals + [a] && GlobalTight(cfg, arrivals, level, a.at)
    requires level' >= level - if a.Datagram? && Wanted(cfg, a.pkt, a.src) then 1.0 else 0.0
    ensures GlobalTight(cfg, longer, level', a.at)
  {
    var from: real :| from <= a.at && RequestsSince(cfg, arrivals, from) as real + level >= cfg.all.cap + Gain(cfg.all.rate, a.at - from);
    RequestsStep(cfg, arrivals, a, longer, from);
    GlobalTightAt(cfg, longer, level', a.at, from);
  }

  lemma {:induction false} RunIsGloballyTight(cfg: Config, start: real, arrivals: seq<Arrival>)
    requires ConfigSound(cfg) && InTime(arrivals, start)
    ensures var b, now := After(cfg, start, arrivals), LatestArrival(arrivals, start);
      GlobalTight(cfg, arrivals, Level(cfg.all, b.global, now), now)
  {
    if |arrivals| == 0 {
      assert Gain(cfg.all.rate, start - start) == 0.0;
      GlobalTightAt(cfg, [], cfg.all.cap, start, start);
    } else {
      var front, a := arrivals[..|arrivals| - 1], arrivals[|arrivals| - 1];
      var b, now := After(cfg, start, front), LatestArrival(front, start);
      RunIsGloballyTight(cfg, start, front);
      GlobalTightLater(cfg, start, front, b.global, now, a.at);
      RunKeepsLedger(cfg, start, front);
      LedgerLater(cfg, b, now, a.at);
      GlobalLoses(cfg, b, a);
      GlobalTightStep(cfg, front, a, arrivals, Level(cfg.all, b.global, a.at), Level(cfg.all, Next(cfg, b, a).global, a.at));
    }
  }

  /** All requests together, with the one at now, stay within the global limit in every interval that ends now. */
  ghost predicate QuietEnough(cfg: Config, arrivals: seq<Arrival>, now: real) {
    forall from: real :: from <= now ==>
      RequestsSince(cfg, arrivals, from) as real + 1.0 <= cfg.all.cap + cfg.all.rate * (now - from)
  }

  /** Nobody is starved: while all requests together stay within the global limit, the global bucket refuses none. */
  lemma QuietIsNeverRefused(cfg: Config, start: real, arrivals: seq<Arrival>, at: real)
    requires ConfigSound(cfg) && InTime(arrivals, start) && LatestArrival(arrivals, start) <= at
    requires QuietEnough(cfg, arrivals, at)
    ensures HasToken(cfg.all, After(cfg, start, arrivals).global, at)
  {
    var b, now := After(cfg, start, arrivals), LatestArrival(arrivals, start);
    RunIsGloballyTight(cfg, start, arrivals);
    GlobalTightLater(cfg, start, arrivals, b.global, now, at);
    HasTokenIsLevel(cfg.all, b.global, at);
    var from: real :| from <= at &&
      RequestsSince(cfg, arrivals, from) as real + Level(cfg.all, b.global, at) >= cfg.all.cap + Gain(cfg.all.rate, at - from);
    assert RequestsSince(cfg, arrivals, from) as real + 1.0 <= cfg.all.cap + cfg.all.rate * (at - from);
  }

  // ----- sweeps are invisible -----

  /** The same arrivals without the minutes at which idle sources are swept. */
  function Unswept(arrivals: seq<Arrival>): seq<Arrival> {
    if |arrivals| == 0 then []
    else if arrivals[|arrivals| - 1].Datagram? then Unswept(arrivals[..|arrivals| - 1]) + [arrivals[|arrivals| - 1]]
    else Unswept(arrivals[..|arrivals| - 1])
  }

  /** Nothing that the server sends can tell the two apart, and neither can a request of the given source. */
  ghost predicate Alike(cfg: Config, b: Meter, b': Meter, ip: string, now: real) {
    && b.global == b'.global && b.replies == b'.replies
    && LevelOf(cfg.perIP, b.sources, ip, now) == LevelOf(cfg.perIP, b'.sources, ip, now)
  }

  lemma AlikeLater(cfg: Config, b: Meter, b': Meter, ip: string, now: real, later: real)
    requires Alike(cfg, b, b', ip, now) && now <= later && 0.0 <= cfg.perIP.rate
    ensures Alike(cfg, b, b', ip, later)
  {
    LevelLater(cfg.perIP, b.sources, ip, now, later);
    LevelLater(cfg.perIP, b'.sources, ip, now, later);
  }

  lemma AlikeNext(cfg: Config, b: Meter, b': Meter, ip: string, pkt: Packet, src: Address, now: real)
    requires Alike(cfg, b, b', ip, now) && Alike(cfg, b, b', src.ip, now)
    ensures Alike(cfg, Next(cfg, b, Datagram(pkt, src, now)), Next(cfg, b', Datagram(pkt, src, now)), ip, now)
  {
    RequestedKeepsOthers(cfg.perIP, b.sources, src.ip, ip, now);
    RequestedKeepsOthers(cfg.perIP, b'.sources, src.ip, ip, now);
  }

  /** Over every run the server sends exactly what it would send if it never swept. */
  lemma {:induction false} SweepsAreInvisible(cfg: Config, start: real, arrivals: seq<Arrival>, ip: string)
    requires ConfigSound(cfg) && InTime(arrivals, start)
    ensures Alike(cfg, After(cfg, start, arrivals), After(cfg, start, Unswept(arrivals)), ip, LatestArrival(arrivals, start))
  {
    if |arrivals| > 0 {
      var front, a := arrivals[..|arrivals| - 1], arrivals[|arrivals| - 1];
      var b, b', t := After(cfg, start, front), After(cfg, start, Unswept(front)), LatestArrival(front, start);
      SweepsAreInvisible(cfg, start, front, ip);
      AlikeLater(cfg, b, b', ip, t, a.at);
      match a {
        case Datagram(pkt, src, at) =>
          SweepsAreInvisible(cfg, start, front, src.ip);
          AlikeLater(cfg, b, b', src.ip, t, at);
          AlikeNext(cfg, b, b', ip, pkt, src, at);
          assert Unswept(arrivals)[..|Unswept(front)|] == Unswept(front);
        case Minute(at) =>
          RunKeepsLedger(cfg, start, front);
          LedgerLater(cfg, b, t, at);
          SweepKeepsLevels(cfg.perIP, b.sources, ip, at);
      }
    }
  }

  // ----- the server -----

  class TokenBucket {
    const lim: Limit
    var tokens: real
    var last: real

    constructor (tokens: real, lim: Limit, last: real)
      ensures this.lim == lim && this.tokens == tokens && this.last == last
    {
      this.tokens, this.lim, this.last := tokens, lim, last;
    }

    function Content(): Bucket
      reads this
    {
      Bucket(tokens, last)
    }

    /** Refills the bucket for the time that passed and takes a token if there is one. */
    method Allow(now: real) returns (ok: bool)
      modifies this
      ensures Content() == Spent(Level(lim, old(Content()), now), now)
      ensures ok <==> HasToken(lim, old(Content()), now)
      ensures last == now && tokens == Level(lim, old(Content()), now) - if ok then 1.0 else 0.0
    {
      var gained := Gain(lim.rate, now - last);
      HasTokenIsLevel(lim, Content(), now);
      tokens := Least(lim.cap, tokens + gained);
      last := now;
      if tokens < 1.0 {
        return false;
      }
      tokens := tokens - 1.0;
      ok := true;
    }
  }

  const DEFAULT_MAX_PPS := 20000
  const DEFAULT_PER_IP_PPS := 120

  class Server {
    const tokenFor: Address -> Token
    const perIP: Limit
    const global: TokenBucket
    var sources: map<string, TokenBucket>
    var echoed: nat
    var hellos: nat
    var dropped: nat
    /** What has been written to the socket. */
    var replies: seq<Reply>

    ghost var buckets: map<string, Bucket>
    ghost var repr: set<TokenBucket>

    ghost function Settings(): Config {
      Config(perIP, global.lim, tokenFor)
    }

    ghost function Content(): Meter
      reads this, global
    {
      Meter(buckets, global.Content(), replies)
    }

    /** Every source has a bucket of its own, and buckets records their contents. */
    ghost predicate SourcesValid()
      reads this, repr
    {
      && sources.Keys == buckets.Keys
      && (forall ip :: ip in sources ==> sources[ip] in repr && sources[ip].lim == perIP)
      && (forall ip :: ip in sources ==> sources[ip].Content() == buckets[ip])
      && (forall ip, other :: ip in sources && other in sources && ip != other ==> sources[ip] != sources[other])
    }

    ghost predicate Valid()
      reads this, repr
    {
      SourcesValid() && global !in repr
    }

    constructor (tokenFor: Address -> Token, maxPPS: int, perIPPPS: int, now: real)
      ensures Valid() && fresh(global) && fresh(repr)
      ensures Settings() == ConfigOf(tokenFor, maxPPS, perIPPPS) && Content() == After(Settings(), now, [])
      ensures echoed == hellos == dropped == 0
    {
      var most := (if maxPPS <= 0 then DEFAULT_MAX_PPS else maxPPS) as real;
      var each := if perIPPPS <= 0 then DEFAULT_PER_IP_PPS else perIPPPS;
      this.tokenFor := tokenFor;
      perIP := Limit((each * 2) as real, each as real);
      global := new TokenBucket(most, Limit(most, most), now);
      sources, buckets, repr, replies := map[], map[], {}, [];
      echoed, hellos, dropped := 0, 0, 0;
    }

    /** Creates the bucket of a source on its first request. */
    method AllowSource(ip: string, now: real) returns (ok: bool)
      requires SourcesValid()
      modifies this`sources, this`buckets, this`repr, repr
      ensures SourcesValid() && fresh(repr - old(repr))
      ensures buckets == Requested(perIP, old(buckets), ip, now)
      ensures ok <==> SourceHasToken(perIP, old(buckets), ip, now)
    {
      if ip !in sources {
        var b := new TokenBucket(perIP.cap, perIP, now);
        sources := sources[ip := b];
        repr := repr + {b};
      }
      ok := sources[ip].Allow(now);
      buckets := Requested(perIP, buckets, ip, now);
      assert Gain(perIP.rate, now - now) == 0.0;
    }

    /** Deletes the sources that have been idle. */
    method DropIdle(now: real)
      modifies this`sources
      ensures forall ip :: ip in sources <==> ip in old(sources) && now - old(sources)[ip].last <= 60.0
      ensures forall ip :: ip in sources ==> sources[ip] == old(sources)[ip]
    {
      ghost var all := sources;
      var todo := sources.Keys;
      while todo != {}
        invariant todo <= all.Keys
        invariant forall ip :: ip in sources <==> ip in all && (ip in todo || now - all[ip].last <= IDLE)
        invariant forall ip :: ip in sources ==> sources[ip] == all[ip]
        decreases |todo|
      {
        var ip := Pick(todo);
        todo := todo - {ip};
        if now - sources[ip].last > IDLE {
          sources := sources - {ip};
        }
      }
    }

    /** Drops the buckets of idle sources and returns how many are left. */
    method Sweep(now: real) returns (n: nat)
      requires Valid()
      modifies this`sources, this`buckets
      ensures Valid()
      ensures buckets == Swept(old(buckets), now) && n == |buckets|
      ensures forall ip :: ip in buckets <==> ip in old(buckets) && now - old(buckets)[ip].last <= 60.0
      ensures forall ip :: ip in buckets ==> buckets[ip] == old(buckets)[ip]
    {
      DropIdle(now);
      buckets := Swept(buckets, now);
      n := |sources.Keys|;
      assert sources.Keys == buckets.Keys;
    }

    /** The minute's statistics: an idle sweep, after which the counters start again. */
    method Stats(now: real) returns (e: nat, h: nat, d: nat, n: nat)
      requires Valid()
      modifies this`sources, this`buckets, this`echoed, this`hellos, this`dropped
      ensures Valid() && Content() == Next(Settings(), old(Content()), Minute(now))
      ensures e == old(echoed) && h == old(hellos) && d == old(dropped) && n == |buckets|
      ensures echoed == hellos == dropped == 0
    {
      n := Sweep(now);
      e, h, d := echoed, hellos, dropped;
      echoed, hellos, dropped := 0, 0, 0;
    }

    /** Sends the reply if both buckets allow it. */
    method Permit(r: Reply) returns (ok: bool)
      requires Valid()
      modifies this`sources, this`buckets, this`repr, this`replies, repr, global
      ensures Valid() && fresh(repr - old(repr))
      ensures Content() == Asked(Settings(), old(Content()), r)
      ensures ok <==> HasToken(global.lim, old(global.Content()), r.at) && SourceHasToken(perIP, old(buckets), r.to.ip, r.at)
      ensures replies == if ok then old(replies) + [r] else old(replies)
      ensures global.last == r.at && global.tokens == Level(global.lim, old(global.Content()), r.at) -
        if HasToken(global.lim, old(global.Content()), r.at) then 1.0 else 0.0
      ensures !HasToken(global.lim, old(global.Content()), r.at) ==> buckets == old(buckets)
    {
      ok := global.Allow(r.at);
      if ok {
        ok := AllowSource(r.to.ip, r.at);
      }
      if ok {
        replies := replies + [r];
      }
    }

    /** One datagram. */
    method Handle(pkt: Packet, src: Address, now: real) returns (ok: bool)
      requires Valid()
      modifies this, repr, global
      ensures Valid() && fresh(repr - old(repr))
      ensures Content() == Next(Settings(), old(Content()), Datagram(pkt, src, now))
      ensures ok <==>
        && (pkt.Hello? || (pkt.Probe? && pkt.token == tokenFor(src)))
        && HasToken(global.lim, old(global.Content()), now) && SourceHasToken(perIP, old(buckets), src.ip, now)
      ensures replies ==
        if !ok then old(replies)
        else if pkt.Hello? then old(replies) + [Granted(src, now, tokenFor(src))]
        else old(replies) + [Echoed(src, now, pkt)]
      ensures hellos == old(hellos) + if ok && pkt.Hello? then 1 else 0
      ensures echoed == old(echoed) + if ok && pkt.Probe? then 1 else 0
      ensures dropped == old(dropped) + if ok then 0 else 1
    {
      ok := false;
      match pkt
      case Hello =>
        ok := Permit(Granted(src, now, tokenFor(src)));
        if ok {
          hellos := hellos + 1;
        } else {
          dropped := dropped + 1;
        }
      case Probe(token, _) =>
        if token == tokenFor(src) {
          ok := Permit(Echoed(src, now, pkt));
        }
        if ok {
          echoed := echoed + 1;
        } else {
          dropped := dropped + 1;
        }
      case Other =>
        dropped := dropped + 1;
    }
  }

  /** A burst of twice the rate per source, and of one second's worth for all sources together; defaults replace rates below one. */
  function ConfigOf(tokenFor: Address -> Token, maxPPS: int, perIPPPS: int): (cfg: Config)
    ensures ConfigSound(cfg)
  {
    var most := (if maxPPS <= 0 then DEFAULT_MAX_PPS else maxPPS) as real;
    var each := (if perIPPPS <= 0 then DEFAULT_PER_IP_PPS else perIPPPS) as real;
    Config(Limit(2.0 * each, each), Limit(most, most), tokenFor)
  }

  method Serve(s: Server, arrivals: seq<Arrival>, ghost start: real)
    requires s.Valid() && s.Content() == After(s.Settings(), start, [])
    modifies s, s.repr, s.global
    ensures s.Valid() && fresh(s.repr - old(s.repr))
    ensures s.Content() == After(s.Settings(), start, arrivals)
  {
    if |arrivals| > 0 {
      Serve(s, arrivals[..|arrivals| - 1], start);
      match arrivals[|arrivals| - 1]
      case Datagram(pkt, src, at) => var _ := s.Handle(pkt, src, at);
      case Minute(at) => var _, _, _, _ := s.Stats(at);
    }
  }

  lemma ConfiguredLimits(tokenFor: Address -> Token, maxPPS: int, perIPPPS: int, start: real, arrivals: seq<Arrival>)
    requires InTime(arrivals, start)
    ensures var each := if perIPPPS <= 0 then 120.0 else perIPPPS as real;
      forall ip: string :: Limited(2.0 * each, each, After(ConfigOf(tokenFor, maxPPS, perIPPPS), start, arrivals).replies, Some(ip))
    ensures var most := if maxPPS <= 0 then 20000.0 else maxPPS as real;
      Limited(most, most, After(ConfigOf(tokenFor, maxPPS, perIPPPS), start, arrivals).replies, None)
  {
    var cfg := ConfigOf(tokenFor, maxPPS, perIPPPS);
    forall ip: string ensures Limited(cfg.perIP.cap, cfg.perIP.rate, After(cfg, start, arrivals).replies, Some(ip)) {
      RepliesAreLimited(cfg, start, arrivals, ip);
    }
    RepliesAreLimited(cfg, start, arrivals, "");
  }

  /**
   A server does what its arrivals prescribe, so the lemmas above hold of it. With R the rate of a source and M that of
   all sources, at most 2R + R·d and M + M·d replies are sent in d seconds.
   */
  method RunServer(tokenFor: Address -> Token, maxPPS: int, perIPPPS: int, start: real,
                   arrivals: seq<Arrival>) returns (s: Server)
    requires InTime(arrivals, start)
    ensures s.Content() == After(ConfigOf(tokenFor, maxPPS, perIPPPS), start, arrivals)
    ensures Honest(s.replies, tokenFor)
    ensures var each := if perIPPPS <= 0 then 120.0 else perIPPPS as real;
      forall ip: string, from: real, to: real :: from <= to ==>
        Within(s.replies, Some(ip), from, to) as real <= 2.0 * each + each * (to - from)
    ensures var most := if maxPPS <= 0 then 20000.0 else maxPPS as real;
      forall from: real, to: real :: from <= to ==> Within(s.replies, None, from, to) as real <= most + most * (to - from)
  {
    s := new Server(tokenFor, maxPPS, perIPPPS, start);
    Serve(s, arrivals, start);
    ConfiguredLimits(tokenFor, maxPPS, perIPPPS, start, arrivals);
    RepliesAreHonest(ConfigOf(tokenFor, maxPPS, perIPPPS), start, arrivals);
  }
}
