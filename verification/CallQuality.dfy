/**
 The mean opinion score of a call: the Cole and Rosenbluth simplification of the E-model of ITU-T G.107. Floating-point
 numbers are modelled as reals; the natural logarithm is a parameter of which only ln(1) = 0 and monotonicity are known.
 */
module CallQuality {

  ghost predicate IsLogarithm(ln: real -> real) {
    ln(1.0) == 0.0 && forall x, y :: 1.0 <= x <= y ==> ln(x) <= ln(y)
  }

  /** The delay impairment: flat below 160 ms of effective latency, steeper above. */
  function DelayImpairment(effLatency: real): real {
    if effLatency < 160.0 then effLatency / 40.0 else (effLatency - 120.0) / 10.0
  }

  /** The rating R, clamped to [0, 100]. */
  function Rating(ln: real -> real, lossPct: real, rttMs: real, jitterMs: real): real {
    var id := DelayImpairment(rttMs / 2.0 + 2.0 * jitterMs + 10.0);
    var ie := 30.0 * ln(1.0 + 15.0 * lossPct / 100.0);
    var r := 94.2 - id - ie;
    if r < 0.0 then 0.0 else if r > 100.0 then 100.0 else r
  }

  /** The cubic that maps a rating to a score. */
  function Cubic(r: real): real {
    1.0 + 0.035 * r + 0.000007 * r * (r - 60.0) * (100.0 - r)
  }

  function Clamp(m: real): real {
    if m < 1.0 then 1.0 else if m > 5.0 then 5.0 else m
  }

  function Mos(ln: real -> real, lossPct: real, rttMs: real, jitterMs: real): real {
    Clamp(Cubic(Rating(ln, lossPct, rttMs, jitterMs)))
  }

  /** The slope of the cubic between two ratings. */
  function Slope(a: real, b: real): real {
    0.000007 * (160.0 * (a + b) - (a * a + a * b + b * b) - 1000.0)
  }

  lemma CubicDifference(a: real, b: real)
    ensures Cubic(b) - Cubic(a) == (b - a) * Slope(a, b)
  {
  }

  /** Close to R = 0 the cubic falls below 1 and is not monotone: only the clamp repairs it. */
  lemma CubicDips()
    ensures Cubic(3.0) < Cubic(0.0) == 1.0
  {
  }

  lemma AboveOne(a: real)
    requires 0.0 <= a <= 100.0 && Cubic(a) > 1.0
    ensures 160.0 * a - a * a > 1000.0
  {
    CubicDifference(0.0, a);
    var slope := 160.0 * a - a * a - 1000.0;
    assert Cubic(a) - 1.0 == a * (0.000007 * slope);
    if slope <= 0.0 {
      Product(a, -0.000007 * slope);
    }
  }

  lemma SlopeWhenLow(a: real, b: real)
    requires 0.0 <= a <= b && a + b <= 160.0 && 160.0 * a - a * a > 1000.0
    ensures Slope(a, b) >= 0.0
  {
    Product(b, 160.0 - a - b);
    assert 160.0 * (a + b) - (a * a + a * b + b * b) - 1000.0 == (160.0 * a - a * a - 1000.0) + b * (160.0 - a - b);
  }

  lemma SlopeWhenHigh(x: real, y: real)
    requires 0.0 <= y <= x <= 40.0
    ensures Slope(100.0 - x, 100.0 - y) >= 0.0
  {
    Product(x, 40.0 - x);
    Product(x, 40.0 - y);
    Product(y, 40.0 - y);
    var a, b := 100.0 - x, 100.0 - y;
    assert 160.0 * (a + b) - (a * a + a * b + b * b) - 1000.0 == 1000.0 + 140.0 * (x + y) - (x * x + x * y + y * y);
  }

  /** Wherever the cubic exceeds 1 it rises from there on. */
  lemma SlopeIsPositive(a: real, b: real)
    requires 0.0 <= a <= b <= 100.0 && Cubic(a) > 1.0
    ensures Slope(a, b) >= 0.0
  {
    AboveOne(a);
    if a + b <= 160.0 {
      SlopeWhenLow(a, b);
    } else {
      SlopeWhenHigh(100.0 - a, 100.0 - b);
    }
  }

  lemma Product(p: real, q: real)
    requires p >= 0.0 && q >= 0.0
    ensures p * q >= 0.0
  {
  }

  lemma ScoreIsMonotone(a: real, b: real)
    requires 0.0 <= a <= b <= 100.0
    ensures Clamp(Cubic(a)) <= Clamp(Cubic(b))
  {
    if Cubic(a) > 1.0 {
      SlopeIsPositive(a, b);
      CubicDifference(a, b);
      Product(b - a, Slope(a, b));
    }
  }

  /** Scores lie between 1 and 4.5; the upper clamp at 5 is never reached. */
  lemma MosRange(ln: real -> real, lossPct: real, rttMs: real, jitterMs: real)
    ensures 1.0 <= Mos(ln, lossPct, rttMs, jitterMs) <= 4.5
  {
    var r := Rating(ln, lossPct, rttMs, jitterMs);
    ScoreIsMonotone(r, 100.0);
    assert Cubic(100.0) == 4.5;
  }

  /** More loss, a longer round trip or more jitter never raises the score. */
  lemma MosNeverRises(ln: real -> real, loss1: real, loss2: real, rtt1: real, rtt2: real, jitter1: real, jitter2: real)
    requires IsLogarithm(ln)
    requires 0.0 <= loss1 <= loss2 && rtt1 <= rtt2 && jitter1 <= jitter2
    ensures Mos(ln, loss2, rtt2, jitter2) <= Mos(ln, loss1, rtt1, jitter1)
  {
    var x, y := 1.0 + 15.0 * loss1 / 100.0, 1.0 + 15.0 * loss2 / 100.0;
    assert 1.0 <= x <= y;
    assert ln(x) <= ln(y);
    ScoreIsMonotone(Rating(ln, loss2, rtt2, jitter2), Rating(ln, loss1, rtt1, jitter1));
  }

  /** A millisecond of jitter costs as much as four milliseconds of round-trip time. */
  lemma JitterCostsFourfold(ln: real -> real, lossPct: real, rttMs: real, jitterMs: real, more: real)
    ensures Rating(ln, lossPct, rttMs, jitterMs + more) == Rating(ln, lossPct, rttMs + 4.0 * more, jitterMs)
  {
    assert rttMs / 2.0 + 2.0 * (jitterMs + more) + 10.0 == (rttMs + 4.0 * more) / 2.0 + 2.0 * jitterMs + 10.0;
  }

  /**
   Without loss and jitter: the rating is 93.95 on an instant link and falls by a point for every 80 ms of round trip up
   to 300 ms, which is 160 ms of latency, and by a point for every 20 ms above, until it reaches zero.
   */
  lemma DelayCosts(ln: real -> real, rttMs: real)
    requires IsLogarithm(ln) && 0.0 <= rttMs
    ensures rttMs < 300.0 ==> Rating(ln, 0.0, rttMs, 0.0) == 93.95 - rttMs / 80.0
    ensures 300.0 <= rttMs <= 2104.0 ==> Rating(ln, 0.0, rttMs, 0.0) == 90.2 - (rttMs - 300.0) / 20.0
    ensures 2104.0 <= rttMs ==> Rating(ln, 0.0, rttMs, 0.0) == 0.0
  {
    assert 1.0 + 15.0 * 0.0 / 100.0 == 1.0;
  }

  /** Loss costs 30 ln(1 + 0.15 percent) points, whatever the delay is, until the rating reaches zero. */
  lemma LossCosts(ln: real -> real, lossPct: real, rttMs: real, jitterMs: real)
    requires IsLogarithm(ln) && 0.0 <= lossPct && Rating(ln, 0.0, rttMs, jitterMs) < 100.0
    ensures var r := Rating(ln, 0.0, rttMs, jitterMs) - 30.0 * ln(1.0 + 0.15 * lossPct);
      Rating(ln, lossPct, rttMs, jitterMs) == if r < 0.0 then 0.0 else r
  {
    assert 1.0 + 15.0 * lossPct / 100.0 == 1.0 + 0.15 * lossPct;
    assert 1.0 + 15.0 * 0.0 / 100.0 == 1.0;
    assert ln(1.0) <= ln(1.0 + 0.15 * lossPct);
  }

  /** The cubic is 1, 3.1 and 4.5 at ratings 0, 60 and 100. */
  lemma CubicExpanded(r: real)
    ensures Cubic(r) == 1.0 - 0.007 * r + 0.00112 * (r * r) - 0.000007 * (r * r * r)
    ensures Cubic(0.0) == 1.0 && Cubic(60.0) == 3.1 && Cubic(100.0) == 4.5
  {
  }

  /** The score is the cubic of the rating, kept at or above 1. */
  lemma ScoreOfRating(ln: real -> real, lossPct: real, rttMs: real, jitterMs: real, score: real)
    requires var r := Rating(ln, lossPct, rttMs, jitterMs); score == 1.0 - 0.007 * r + 0.00112 * (r * r) - 0.000007 * (r * r * r)
    ensures Mos(ln, lossPct, rttMs, jitterMs) == if score < 1.0 then 1.0 else score
  {
    var r := Rating(ln, lossPct, rttMs, jitterMs);
    CubicExpanded(r);
    MosRange(ln, lossPct, rttMs, jitterMs);
    assert Clamp(score) <= 4.5;
  }
}
