/** Types shared by every component: the option type, the stored ping sample, and Go's integer division. */
module Common {
  datatype Option<+T> = None | Some(value: T)

  /** One ping result. `rttUs` is meaningful only when `success` holds. */
  datatype Sample = Sample(target: int, ts: int, rttUs: int, success: bool, duringSpeedtest: bool)

  function Failure(): Sample -> bool {
    (s: Sample) => !s.success
  }

  function NotDuringSpeedtest(): Sample -> bool {
    (s: Sample) => !s.duringSpeedtest
  }

  /** Go's `/` on signed integers drops the fraction, so it rounds toward zero. */
  function TruncDiv(a: int, b: int): (q: int)
    requires b > 0
    ensures a >= 0 ==> q >= 0
    ensures a <= 0 ==> q <= 0
  {
    if a >= 0 then a / b else -((-a) / b)
  }

  lemma TruncDivBounds(a: int, b: int)
    requires b > 0
    ensures var q := TruncDiv(a, b);
      if a >= 0 then q * b <= a < q * b + b else q * b - b < a <= q * b
  {
    if a >= 0 {
      assert a == a / b * b + a % b;
    } else {
      assert -a == -a / b * b + (-a) % b;
    }
  }

  lemma Multiply(p: int, q: int, w: int)
    requires p <= q && w >= 0
    ensures p * w <= q * w
  {
  }

  lemma TruncDivMonotone(a: int, b: int, w: int)
    requires w > 0 && a <= b
    ensures TruncDiv(a, w) <= TruncDiv(b, w)
  {
    var p, q := TruncDiv(a, w), TruncDiv(b, w);
    TruncDivBounds(a, w);
    TruncDivBounds(b, w);
    assert (q + 1) * w == q * w + w;
    if q < p {
      Multiply(q + 1, p, w);
    }
  }

  /** Some element of a set: a map iterates over its keys in any order. */
  method Pick<T(==)>(s: set<T>) returns (x: T)
    requires s != {}
    ensures x in s
  {
    x :| x in s;
  }

  function Abs(x: int): int { if x < 0 then -x else x }

  function Max(a: int, b: int): int { if a < b then b else a }

  function Min(a: int, b: int): int { if a < b then a else b }

  /** The number of points of [lo, hi) that satisfy p. */
  ghost function Measure(p: int -> bool, lo: int, hi: int): (m: nat)
    decreases hi - lo
    ensures lo <= hi ==> m <= hi - lo
  {
    if hi <= lo then 0 else Measure(p, lo, hi - 1) + if p(hi - 1) then 1 else 0
  }

  lemma {:induction false} MeasureSplit(p: int -> bool, lo: int, mid: int, hi: int)
    requires lo <= mid <= hi
    ensures Measure(p, lo, hi) == Measure(p, lo, mid) + Measure(p, mid, hi)
    decreases hi - mid
  {
    if mid < hi {
      MeasureSplit(p, lo, mid, hi - 1);
    }
  }

  /** Measure is monotone, and two predicates agree everywhere as soon as one implies the other and their measures agree. */
  lemma {:induction false} MeasureMonotone(p: int -> bool, q: int -> bool, lo: int, hi: int)
    requires forall t :: lo <= t < hi && p(t) ==> q(t)
    ensures Measure(p, lo, hi) <= Measure(q, lo, hi)
    ensures Measure(p, lo, hi) == Measure(q, lo, hi) <==> (forall t :: lo <= t < hi ==> p(t) == q(t))
    decreases hi - lo
  {
    if lo < hi {
      MeasureMonotone(p, q, lo, hi - 1);
    }
  }

  lemma {:induction false} MeasureConstant(p: int -> bool, lo: int, hi: int, value: bool)
    requires lo <= hi
    requires forall t :: lo <= t < hi ==> p(t) == value
    ensures Measure(p, lo, hi) == if value then hi - lo else 0
    decreases hi - lo
  {
    if lo < hi {
      MeasureConstant(p, lo, hi - 1, value);
    }
  }
}
