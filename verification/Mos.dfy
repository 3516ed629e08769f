/** The mean opinion score of a call, over the reals: from the transmission rating R, and from packet
    loss, round trips and jitter. */
module Mos {

  /** `computeScore`, the mapping of Annex B of ITU-T Rec. G.107. */
  function Score(r: real): real {
    if r < 0.0 then 1.0
    else if r > 100.0 then 4.5
    else Cubic(r)
  }

  function Cubic(r: real): real {
    1.0 + 0.035 * r + 0.000007 * (r * (r - 60.0) * (100.0 - r))
  }

  /** The slope of the cubic between two ratings, times a million. */
  function Slope(a: real, b: real): real {
    7.0 * (160.0 * (a + b) - (a * a + a * b + b * b) - 1000.0)
  }

  lemma Factors(a: real, b: real)
    ensures 1000000.0 * (Cubic(b) - Cubic(a)) == (b - a) * Slope(a, b)
  {
    var ca, cb := a * (a - 60.0) * (100.0 - a), b * (b - 60.0) * (100.0 - b);
    assert ca == 160.0 * (a * a) - a * a * a - 6000.0 * a;
    assert cb == 160.0 * (b * b) - b * b * b - 6000.0 * b;
    assert (b - a) * (a * a + a * b + b * b) == b * b * b - a * a * a;
    assert (b - a) * (a + b) == b * b - a * a;
    assert 1000000.0 * (Cubic(b) - Cubic(a)) == 35000.0 * (b - a) + 7.0 * (cb - ca);
  }

  /** Above zero exactly where the cubic still falls; the smaller root is a little above 3.22. */
  function Turning(r: real): real { 3.0 * r * r - 320.0 * r + 1000.0 }

  lemma Product(x: real, y: real)
    requires (x >= 0.0 && y >= 0.0) || (x <= 0.0 && y <= 0.0)
    ensures x * y >= 0.0
  {
  }

  /** The slope up to 100 is 1000 + (100 - a) (40 + a), times seven. */
  lemma EndSlope(a: real)
    requires 0.0 <= a <= 100.0
    ensures Slope(a, 100.0) >= 0.0
  {
    Product(100.0 - a, 40.0 + a);
    assert Slope(a, 100.0) == 7.0 * (1000.0 + (100.0 - a) * (40.0 + a));
  }

  /** The slope is not negative between ratings behind the turning point: in `b` it is concave, so it is
      bounded by its ends, at `a` itself and at 100. */
  lemma SlopeUp(a: real, b: real)
    requires 0.0 <= a <= b <= 100.0 && Turning(a) <= 0.0
    ensures Slope(a, b) >= 0.0
  {
    var d, e := b - a, 100.0 - b;
    if 160.0 - 3.0 * a - d >= 0.0 {
      Product(d, 160.0 - 3.0 * a - d);
      assert Slope(a, b) == 7.0 * (-Turning(a) + d * (160.0 - 3.0 * a - d));
    } else {
      EndSlope(a);
      Product(e, 40.0 + a - e);
      assert Slope(a, b) == Slope(a, 100.0) + 7.0 * (e * (40.0 + a - e));
    }
  }

  lemma TurningStays(from: real, a: real)
    requires 0.0 <= from <= a <= 100.0 && Turning(from) <= 0.0
    ensures Turning(a) <= 0.0
  {
    var d, e := a - from, 100.0 - a;
    if 3.0 * (a + from) <= 320.0 {
      Product(d, 320.0 - 3.0 * (a + from));
      assert Turning(a) == Turning(from) - d * (320.0 - 3.0 * (a + from));
    } else {
      Product(e, 3.0 * a - 20.0);
      assert Turning(a) == -1000.0 - e * (3.0 * a - 20.0);
    }
  }

  /** The score does not fall from `from` up to 100. */
  ghost predicate RisesFrom(from: real) {
    forall a, b :: from <= a <= b <= 100.0 ==> Score(a) <= Score(b)
  }

  lemma Rises(a: real, b: real)
    requires 0.0 <= a <= b <= 100.0 && Turning(a) <= 0.0
    ensures Score(a) <= Score(b)
  {
    SlopeUp(a, b);
    Factors(a, b);
    Product(b - a, Slope(a, b));
  }

  lemma SlopeDown(a: real, d: real)
    requires a >= 0.0 && 0.0 < d <= Turning(a) / 200.0
    ensures Slope(a, a + d) < 0.0
  {
    Product(d, 3.0 * a + d);
    assert Slope(a, a + d) == 7.0 * (160.0 * d - Turning(a) - d * (3.0 * a + d));
    assert Slope(a, a + d) <= 7.0 * (160.0 * d - 200.0 * d);
  }

  /** Ratings before the turning point are small. */
  lemma Early(a: real)
    requires 0.0 <= a <= 100.0 && Turning(a) > 0.0
    ensures a < 4.0 && Turning(a) <= 1000.0
  {
    if a >= 4.0 {
      assert Turning(4.0) <= 0.0;
      TurningStays(4.0, a);
    }
    Product(a, 320.0 - 3.0 * a);
    assert Turning(a) == 1000.0 - a * (320.0 - 3.0 * a);
  }

  /** Before the turning point the score falls, if only a little way and not beyond `cap`. */
  lemma Falls(a: real, cap: real) returns (b: real)
    requires 0.0 <= a <= 100.0 && Turning(a) > 0.0 && a < cap
    ensures a < b <= cap && b <= 100.0 && Score(b) < Score(a)
  {
    hide Turning, Slope, Score;
    Early(a);
    var d := if Turning(a) / 200.0 <= cap - a then Turning(a) / 200.0 else cap - a;
    b := a + d;
    SlopeDown(a, d);
    Lower(a, b);
  }

  lemma Lower(a: real, b: real)
    requires 0.0 <= a < b <= 100.0 && Slope(a, b) < 0.0
    ensures Score(b) < Score(a)
  {
    hide Slope, Cubic;
    Negative(b - a, Slope(a, b));
    Factors(a, b);
  }

  lemma Negative(x: real, y: real)
    requires x > 0.0 && y < 0.0
    ensures x * y < 0.0
  {
  }

  lemma Positive(x: real, y: real)
    requires x > 0.0 && y > 0.0
    ensures x * y > 0.0
  {
  }

  /** Where the score rises: from a rating up to 100 it does not fall exactly when the rating is behind the
      turning point, as 4 is and 0 is not. */
  lemma RisesExactly(from: real)
    requires 0.0 <= from <= 100.0
    ensures RisesFrom(from) <==> Turning(from) <= 0.0
    ensures RisesFrom(4.0) && !RisesFrom(0.0)
  {
    RisesIff(from);
    RisesIff(4.0);
    RisesIff(0.0);
  }

  lemma RisesIff(from: real)
    requires 0.0 <= from <= 100.0
    ensures RisesFrom(from) <==> Turning(from) <= 0.0
  {
    if Turning(from) <= 0.0 {
      forall a, b | from <= a <= b <= 100.0 ensures Score(a) <= Score(b) {
        TurningStays(from, a);
        Rises(a, b);
      }
    } else {
      assert Turning(100.0) <= 0.0;
      var b := Falls(from, 100.0);
    }
  }

  /** Every score lies between 0.98 and 4.5, and the branches meet at 0 and 100. */
  lemma ScoreBounds(r: real)
    ensures 0.98 <= Score(r) <= 4.5
    ensures (r <= 0.0 ==> Score(r) == 1.0) && (r >= 100.0 ==> Score(r) == 4.5)
    ensures Cubic(0.0) == 1.0 && Cubic(100.0) == 4.5
  {
    if 0.0 <= r <= 100.0 {
      LowerBound(r);
      if r >= 4.0 {
        assert Turning(4.0) <= 0.0;
        TurningStays(4.0, r);
        Rises(r, 100.0);
      } else {
        Product(r * (60.0 - r), 100.0 - r) by {
          Product(r, 60.0 - r);
        }
        assert Cubic(r) == 1.0 + 0.035 * r - 0.000007 * (r * (60.0 - r) * (100.0 - r));
      }
    }
  }

  lemma LowerBound(r: real)
    requires 0.0 <= r <= 100.0
    ensures Cubic(r) >= 0.98
  {
    var q := r * r;
    assert Cubic(r) == 1.0 - 0.007 * r + 0.000007 * (q * (160.0 - r)) by {
      assert r * (r - 60.0) * (100.0 - r) == q * (160.0 - r) - 6000.0 * r;
    }
    if r <= 20.0 {
      Product(q, 20.0 - r);
      assert q * (160.0 - r) == 140.0 * q + q * (20.0 - r);
      Product(r - 4.0, r - 4.0);
      assert (r - 4.0) * (r - 4.0) == q - 8.0 * r + 16.0;
    } else {
      Product(q, 100.0 - r);
      assert q * (160.0 - r) == 60.0 * q + q * (100.0 - r);
      Product(r, r - 20.0);
      assert r * (r - 20.0) == q - 20.0 * r;
    }
  }

  /* ---- the E-model of a report ---- */

  function LossRating(loss: real): real {
    var rx := 93.2 - loss;
    0.18 * rx * rx - 27.9 * rx + 1126.62
  }

  function DelayImpairment(d: real): real {
    0.024 * d + 0.11 * (d - 177.3) * (if d - 177.3 < 0.0 then 0.0 else 1.0)
  }

  /** The rating at a delay, for which the model takes half of round trip and jitter. */
  function RatingAt(loss: real, delay: real): real { LossRating(loss) - DelayImpairment(delay) }

  function Rating(loss: real, rtt: real, jitter: real): real { RatingAt(loss, (rtt + jitter) / 2.0) }

  function Sum(samples: seq<real>): real {
    if samples == [] then 0.0 else Sum(samples[..|samples| - 1]) + samples[|samples| - 1]
  }

  /** The samples that are there; 0 stands for one that is not. */
  function Present(samples: seq<real>): seq<real> {
    if samples == [] then []
    else Present(samples[..|samples| - 1]) + (if samples[|samples| - 1] == 0.0 then [] else [samples[|samples| - 1]])
  }

  function MeanOr(samples: seq<real>, default_: real): real {
    var present := Present(samples);
    if present == [] then default_ else Sum(present) / |present| as real
  }

  method Mean(samples: seq<real>, default_: real) returns (mean: real)
    ensures mean == MeanOr(samples, default_)
  {
    var values: seq<real> := [];
    var sum := 0.0;
    var i := 0;
    while i < |samples|
      invariant 0 <= i <= |samples|
      invariant values == Present(samples[..i]) && sum == Sum(values)
    {
      assert samples[..i + 1][..i] == samples[..i];
      if samples[i] != 0.0 {
        assert (values + [samples[i]])[..|values|] == values;
        values := values + [samples[i]];
        sum := sum + samples[i];
      }
      i := i + 1;
    }
    assert samples[..i] == samples;
    mean := if |values| > 0 then sum / |values| as real else default_;
  }

  /** `computeEModelMOS`: the samples of the last reports, 100 ms and 10 ms where there are none. */
  method EModelMos(loss: real, rtts: seq<real>, jitters: seq<real>) returns (mos: real)
    ensures mos == Score(Rating(loss, MeanOr(rtts, 100.0), MeanOr(jitters, 10.0)))
    ensures 0.98 <= mos <= 4.5
  {
    var rtt := Mean(rtts, 100.0);
    var jitter := Mean(jitters, 10.0);
    var rx := 93.2 - loss;
    var ry := 0.18 * rx * rx - 27.9 * rx + 1126.62;
    var d := (rtt + jitter) / 2.0;
    var h := if d - 177.3 < 0.0 then 0.0 else 1.0;
    var id := 0.024 * d + 0.11 * (d - 177.3) * h;
    ScoreBounds(ry - id);
    mos := Score(ry - id);
  }

  /** How many samples are there. */
  function Count(samples: seq<real>): nat {
    if samples == [] then 0
    else Count(samples[..|samples| - 1]) + (if samples[|samples| - 1] == 0.0 then 0 else 1)
  }

  lemma {:induction false} PresentCount(samples: seq<real>)
    ensures |Present(samples)| == Count(samples)
  {
    if samples != [] {
      PresentCount(samples[..|samples| - 1]);
    }
  }

  /** The mean: a sample that is not there does not count, one that is weighs as much as each before, and without any
      it is the default. */
  lemma MeanGrows(samples: seq<real>, x: real, default_: real)
    ensures Count(samples) == 0 ==> MeanOr(samples, default_) == default_
    ensures x == 0.0 ==> MeanOr(samples + [x], default_) == MeanOr(samples, default_)
    ensures x != 0.0 && Count(samples) == 0 ==> MeanOr(samples + [x], default_) == x
    ensures x != 0.0 && Count(samples) > 0 ==>
              MeanOr(samples + [x], default_) * (Count(samples) + 1) as real ==
              MeanOr(samples, default_) * Count(samples) as real + x
  {
    var more := samples + [x];
    PresentCount(samples);
    PresentMore(samples, x);
    MeanTimes(samples, default_);
    MeanTimes(more, default_);
    hide Present, MeanOr;
    var present := Present(samples);
    if x == 0.0 {
      MeanSame(samples, more, default_);
      return;
    }
    SumMore(present, x);
    hide Sum;
    assert MeanOr(more, default_) * |Present(more)| as real == Sum(present) + x;
    assert |Present(more)| == Count(samples) + 1;
  }

  lemma MeanTimes(samples: seq<real>, default_: real)
    ensures Present(samples) == [] ==> MeanOr(samples, default_) == default_
    ensures Present(samples) != [] ==> MeanOr(samples, default_) * |Present(samples)| as real == Sum(Present(samples))
  {
    hide Present, Sum;
    var present := Present(samples);
    if present != [] {
      Share(Sum(present), |present|);
    }
  }

  lemma MeanSame(samples: seq<real>, more: seq<real>, default_: real)
    requires Present(samples) == Present(more)
    ensures MeanOr(samples, default_) == MeanOr(more, default_)
  {
    hide Present, Sum;
  }

  lemma PresentMore(samples: seq<real>, x: real)
    ensures Present(samples + [x]) == if x == 0.0 then Present(samples) else Present(samples) + [x]
  {
    var more := samples + [x];
    assert more[..|more| - 1] == samples;
    assert Present(samples) + [] == Present(samples);
  }

  lemma SumMore(values: seq<real>, x: real)
    ensures Sum(values + [x]) == Sum(values) + x
    ensures values == [] ==> Sum(values) == 0.0
  {
    assert (values + [x])[..|values|] == values;
  }

  lemma Share(sum: real, n: nat)
    requires n > 0
    ensures sum / n as real * n as real == sum
  {
  }

  /** Every millisecond costs 0.024 up to 177.3 and 0.134 from there on. */
  lemma DelayCosts(d: real, d': real)
    requires d <= d'
    ensures DelayImpairment(0.0) == 0.0
    ensures d' <= 177.3 ==> DelayImpairment(d') - DelayImpairment(d) == 0.024 * (d' - d)
    ensures d >= 177.3 ==> DelayImpairment(d') - DelayImpairment(d) == 0.134 * (d' - d)
  {
  }

  /** Without loss and delay the rating is 89.8632, and 45.495 at the loss it falls up to; delay, half of round trip and
      half of jitter, takes from it what it costs. */
  lemma RatingIs(loss: real, rtt: real, jitter: real)
    ensures LossRating(0.0) == 89.8632 && LossRating(15.7) == 45.495
    ensures Rating(loss, 0.0, 0.0) == LossRating(loss)
    ensures Rating(loss, rtt, jitter) == Rating(loss, 0.0, 0.0) - DelayImpairment(0.5 * rtt + 0.5 * jitter)
  {
    hide LossRating, DelayImpairment;
    NoImpairment();
    NoLoss();
    assert (rtt + jitter) / 2.0 == 0.5 * rtt + 0.5 * jitter;
  }

  lemma NoLoss()
    ensures LossRating(0.0) == 89.8632 && LossRating(15.7) == 45.495
  {
  }

  lemma ImpairmentGrows(d: real, d': real)
    requires d < d'
    ensures DelayImpairment(d) < DelayImpairment(d')
  {
  }

  /** The delay at which delays impair by `y`. */
  lemma DelayOf(y: real) returns (d: real)
    requires y >= 0.0
    ensures d >= 0.0 && DelayImpairment(d) == y
  {
    d := if y < 0.024 * 177.3 then y / 0.024 else (y + 0.11 * 177.3) / 0.134;
    if y >= 0.024 * 177.3 {
      assert d >= 177.3;
    } else {
      assert d < 177.3;
    }
  }

  /** At this rating and above the score does not fall. */
  predicate Behind(r: real) { r > 100.0 || (r >= 0.0 && Turning(r) <= 0.0) }

  lemma RisesBehind(low: real, high: real)
    requires Behind(low) && low <= high
    ensures Score(low) <= Score(high)
  {
    ScoreBounds(low);
    if high <= 100.0 {
      Rises(low, high);
    }
  }

  /** More delay never raises the score, up to a limit. */
  ghost predicate DelayFallsTo(loss: real, limit: real) {
    forall a, b :: 0.0 <= a <= b <= limit ==> Score(RatingAt(loss, b)) <= Score(RatingAt(loss, a))
  }

  /** A delay within the limit with a better score than a larger one. */
  lemma DelayHelps(loss: real, limit: real) returns (a: real)
    requires limit > 0.0 && RatingAt(loss, 0.0) > 0.0 && !Behind(RatingAt(loss, limit))
    ensures 0.0 <= a <= limit && Score(RatingAt(loss, a)) < Score(RatingAt(loss, limit))
  {
    hide DelayImpairment;
    var high, low := RatingAt(loss, 0.0), RatingAt(loss, limit);
    ImpairmentGrows(0.0, limit);
    var bottom := if low < 0.0 then 0.0 else low;
    assert Turning(0.0) > 0.0;
    ScoreBounds(0.0);
    var r := Falls(bottom, high);
    assert DelayImpairment(0.0) == 0.0 by { NoImpairment(); }
    a := DelayOf(LossRating(loss) - r);
    assert RatingAt(loss, a) == r;
    if a > limit {
      ImpairmentGrows(limit, a);
    }
  }

  lemma NoImpairment()
    ensures DelayImpairment(0.0) == 0.0
  {
  }

  /** More delay never raises the score up to a limit exactly when there is no delay to speak of, the rating is
      not positive to begin with, or the rating at the limit is behind the turning point. */
  lemma DelayHurts(loss: real, limit: real)
    requires limit >= 0.0
    ensures DelayFallsTo(loss, limit) <==>
            limit == 0.0 || RatingAt(loss, 0.0) <= 0.0 || Behind(RatingAt(loss, limit))
  {
    hide DelayImpairment, Cubic;
    forall a, b | 0.0 <= a <= b <= limit
      ensures RatingAt(loss, limit) <= RatingAt(loss, b) <= RatingAt(loss, a) <= RatingAt(loss, 0.0)
    {
      Ordered(0.0, a);
      Ordered(a, b);
      Ordered(b, limit);
    }
    if limit == 0.0 {
    } else if RatingAt(loss, 0.0) <= 0.0 {
      ScoreBounds(0.0);
    } else if Behind(RatingAt(loss, limit)) {
      forall a, b | 0.0 <= a <= b <= limit ensures Score(RatingAt(loss, b)) <= Score(RatingAt(loss, a)) {
        StaysBehind(RatingAt(loss, limit), RatingAt(loss, b));
        RisesBehind(RatingAt(loss, b), RatingAt(loss, a));
      }
    } else {
      var a := DelayHelps(loss, limit);
    }
  }

  lemma Ordered(d: real, d': real)
    requires d <= d'
    ensures DelayImpairment(d) <= DelayImpairment(d')
  {
    hide DelayImpairment;
    if d < d' {
      ImpairmentGrows(d, d');
    }
  }

  lemma StaysBehind(low: real, r: real)
    requires Behind(low) && low <= r
    ensures Behind(r)
  {
    if r <= 100.0 {
      TurningStays(low, r);
    }
  }

  ghost predicate LossFallsTo(limit: real) {
    forall a, b :: 0.0 <= a <= b <= limit ==> LossRating(b) <= LossRating(a)
  }

  function LossFactor(a: real, b: real): real { a + b - 31.4 }

  lemma LossSlope(a: real, b: real)
    ensures LossRating(b) - LossRating(a) == 0.18 * ((b - a) * LossFactor(a, b))
  {
  }

  lemma Apart(u: real, v: real, x: real, y: real)
    requires x > 0.0 && y > 0.0 && u - v == 0.18 * (x * y)
    ensures u > v
  {
    Positive(x, y);
  }

  lemma LossRises(b: real)
    requires b > 15.7
    ensures LossRating(b) > LossRating(15.7)
  {
    hide LossRating;
    LossSlope(15.7, b);
    Apart(LossRating(b), LossRating(15.7), b - 15.7, LossFactor(15.7, b));
  }

  /** More loss never raises the rating within [0, limit] exactly when the limit is at most 15.7. */
  lemma LossHurts(limit: real)
    requires limit >= 0.0
    ensures LossFallsTo(limit) <==> limit <= 15.7
  {
    if limit <= 15.7 {
      forall a, b | 0.0 <= a <= b <= limit ensures LossRating(b) <= LossRating(a) {
        LossSlope(a, b);
        Product(b - a, -LossFactor(a, b));
      }
    } else {
      LossRises(limit);
    }
  }
}
