/** The sampled joint trajectory and the least duration that respects the velocity and acceleration limits. */
module Trajectory {
  import opened Geometry
  import opened Trigonometry
  import opened Options
  import opened RobotModel
  import opened QuinticBlend

  const MAX_TRAJECTORY_SAMPLES := 100000

  // ----- Samples -----------------------------------------------------------

  function Ratio(n: int, idx: int): real
    requires n >= 2
  {
    (idx as real) / ((n - 1) as real)
  }

  function SampleJoint(a: real, b: real, ratio: real): real {
    a + Smooth(ratio) * (b - a)
  }

  function Sample(start: Joints, end: Joints, ratio: real): Joints {
    seq(JOINT_COUNT, k requires 0 <= k < JOINT_COUNT => SampleJoint(start[k], end[k], ratio))
  }

  /** Samples the blend at evenly spaced ratios; a sample count outside 2..100000 is refused. */
  method JointPolyTraj(start: Joints, end: Joints, n: int) returns (result: Option<seq<Joints>>)
    ensures result.Some? <==> 2 <= n <= MAX_TRAJECTORY_SAMPLES
    ensures result.Some? ==> (
              && |result.value| == n
              && forall idx :: 0 <= idx < n ==> result.value[idx] == Sample(start, end, Ratio(n, idx)))
  {
    hide SampleJoint;
    if n < 2 || n > MAX_TRAJECTORY_SAMPLES {
      return None;
    }
    var samples: seq<Joints> := [];
    for idx := 0 to n
      invariant |samples| == idx
      invariant forall k :: 0 <= k < idx ==> samples[k] == Sample(start, end, Ratio(n, k))
    {
      samples := samples + [Sample(start, end, Ratio(n, idx))];
    }
    return Some(samples);
  }

  // ----- Duration ----------------------------------------------------------

  predicate ValidLimits(velocity: Joints, acceleration: Joints, minimum: real) {
    && (forall k :: 0 <= k < JOINT_COUNT ==> velocity[k] > 0.0)
    && (forall k :: 0 <= k < JOINT_COUNT ==> acceleration[k] > 0.0)
    && minimum > 0.0
  }

  lemma RootOfThree(t: Trig)
    requires t.Valid()
    ensures t.sqrt(3.0) > 0.0 && t.sqrt(3.0) * t.sqrt(3.0) == 3.0
  {
    hide Trig.Valid;
    t.SqrtOf(3.0);
  }

  /** The peak of |s''|, 10 / sqrt(3). */
  function PeakCurvature(t: Trig): real
    requires t.Valid()
  {
    RootOfThree(t);
    10.0 / t.sqrt(3.0)
  }

  function VelocityTime(travel: real, v: real): real
    requires v > 0.0
  {
    PEAK_RATE * travel / v
  }

  function AccelerationSquare(t: Trig, travel: real, a: real): real
    requires t.Valid() && a > 0.0
  {
    PeakCurvature(t) * travel / a
  }

  function AccelerationTime(t: Trig, travel: real, a: real): real
    requires t.Valid() && a > 0.0
  {
    t.sqrt(AccelerationSquare(t, travel, a))
  }

  /** The duration after the first n joints have raised it. */
  function DurationTo(t: Trig, start: Joints, end: Joints, velocity: Joints, acceleration: Joints, minimum: real,
                      n: nat): real
    requires t.Valid() && ValidLimits(velocity, acceleration, minimum) && n <= JOINT_COUNT
  {
    if n == 0 then minimum
    else
      var k := n - 1;
      var travel := Abs(end[k] - start[k]);
      Max(Max(DurationTo(t, start, end, velocity, acceleration, minimum, k), VelocityTime(travel, velocity[k])),
          AccelerationTime(t, travel, acceleration[k]))
  }

  /** Raises the duration joint by joint; limits that are not positive are refused. */
  method CalculateDuration(t: Trig, start: Joints, end: Joints, velocity: Joints, acceleration: Joints, minimum: real)
    returns (result: Option<real>)
    requires t.Valid()
    ensures result == if ValidLimits(velocity, acceleration, minimum)
                      then Some(DurationTo(t, start, end, velocity, acceleration, minimum, JOINT_COUNT)) else None
  {
    hide Trig.Valid, PeakCurvature;
    if !ValidLimits(velocity, acceleration, minimum) {
      return None;
    }
    var duration := minimum;
    for idx := 0 to JOINT_COUNT
      invariant duration == DurationTo(t, start, end, velocity, acceleration, minimum, idx)
    {
      var travel := Abs(end[idx] - start[idx]);
      duration := Max(duration, VelocityTime(travel, velocity[idx]));
      duration := Max(duration, AccelerationTime(t, travel, acceleration[idx]));
    }
    return Some(duration);
  }

  // ----- The duration is the least safe one --------------------------------

  /** First and second derivative of a joint's motion with respect to the blend ratio. */
  function JointRate(travel: real, r: real): real {
    travel * Rate(r)
  }

  function JointCurvature(travel: real, r: real): real {
    travel * Curvature(r)
  }

  /** At blend ratio r of a motion of the given duration, a joint is inside both of its limits. */
  ghost predicate SafeAt(travel: real, v: real, a: real, duration: real, r: real) {
    && Abs(JointRate(travel, r)) <= v * duration
    && Abs(JointCurvature(travel, r)) <= a * Sqr(duration)
  }

  /** The whole motion of one joint respects its velocity and acceleration limits. */
  ghost predicate Safe(travel: real, v: real, a: real, duration: real) {
    forall r :: 0.0 <= r <= 1.0 ==> SafeAt(travel, v, a, duration, r)
  }

  lemma PeakOf(t: Trig)
    requires t.Valid()
    ensures IsPeakCurvature(PeakCurvature(t))
    ensures 0.0 <= 0.5 - PeakCurvature(t) / 20.0 <= 1.0
    ensures Curvature(0.5 - PeakCurvature(t) / 20.0) == PeakCurvature(t)
  {
    hide Trig.Valid, IsPeakCurvature, Curvature;
    RootOfThree(t);
    CurvatureAttained(t.sqrt(3.0), PeakCurvature(t));
  }

  lemma QuotientOrder(x: real, d: real, y: real)
    requires d > 0.0
    ensures x / d <= y <==> x <= d * y
  {
    var q := x / d;
    assert d * q == x;
    if q <= y {
      NonNegative(d, y - q);
    } else {
      PositiveProduct(d, q - y, d * q - d * y);
    }
  }

  lemma RootOrder(t: Trig, x: real, y: real)
    requires t.Valid() && x >= 0.0 && y > 0.0
    ensures t.sqrt(x) <= y <==> x <= Sqr(y)
  {
    hide Trig.Valid;
    t.SqrtOf(x);
    SquareOrder(t.sqrt(x), y, x);
  }

  lemma SquareOrder(a: real, b: real, x: real)
    requires a >= 0.0 && b > 0.0 && x == a * a
    ensures a <= b <==> x <= Sqr(b)
  {
    if a <= b {
      NonNegative(b - a, b + a);
      assert (b - a) * (b + a) == b * b - a * a;
    } else {
      PositiveProduct(a - b, a + b, a * a - b * b);
    }
  }

  /** The two lower bounds a joint puts on the duration, without division or root. */
  lemma BoundsIff(t: Trig, travel: real, v: real, a: real, duration: real)
    requires t.Valid() && travel >= 0.0 && v > 0.0 && a > 0.0 && duration > 0.0
    ensures VelocityTime(travel, v) <= duration <==> PEAK_RATE * travel <= v * duration
    ensures AccelerationTime(t, travel, a) <= duration <==> PeakCurvature(t) * travel <= a * Sqr(duration)
  {
    hide Trig.Valid, PeakCurvature, Sqr, AccelerationSquare;
    QuotientOrder(PEAK_RATE * travel, v, duration);
    SquareIff(t, travel, a, Sqr(duration));
    RootOrder(t, AccelerationSquare(t, travel, a), duration);
  }

  lemma SquareIff(t: Trig, travel: real, a: real, y: real)
    requires t.Valid() && travel >= 0.0 && a > 0.0
    ensures AccelerationSquare(t, travel, a) >= 0.0
    ensures AccelerationSquare(t, travel, a) <= y <==> PeakCurvature(t) * travel <= a * y
  {
    hide Trig.Valid, PeakCurvature;
    PeakOf(t);
    NonNegative(PeakCurvature(t), travel);
    NonNegativeQuotient(PeakCurvature(t) * travel, a);
    QuotientOrder(PeakCurvature(t) * travel, a, y);
  }

  lemma NonNegativeQuotient(x: real, d: real)
    requires x >= 0.0 && d > 0.0
    ensures x / d >= 0.0
  {
  }

  /** One joint is safe exactly when the duration reaches both of its bounds: the peaks are attained. */
  lemma SafeIff(t: Trig, travel: real, v: real, a: real, duration: real)
    requires t.Valid() && v > 0.0 && a > 0.0 && duration > 0.0
    ensures Safe(travel, v, a, duration)
       <==> VelocityTime(Abs(travel), v) <= duration && AccelerationTime(t, Abs(travel), a) <= duration
  {
    hide *;
    PeakOf(t);
    BoundsIff(t, Magnitude(travel), v, a, duration);
    if Safe(travel, v, a, duration) {
      SafeReachesPeaks(travel, v, a, duration, PeakCurvature(t));
    }
    if PEAK_RATE * Abs(travel) <= v * duration && PeakCurvature(t) * Abs(travel) <= a * Sqr(duration) {
      PeaksAreSafe(travel, v, a, duration, PeakCurvature(t));
    }
  }

  lemma SafeSpeed(travel: real, v: real, a: real, duration: real)
    requires Safe(travel, v, a, duration)
    ensures PEAK_RATE * Abs(travel) <= v * duration
  {
    hide JointRate, JointCurvature, Sqr, Abs;
    assert SafeAt(travel, v, a, duration, 0.5);
    MiddleSpeed(travel);
  }

  lemma MiddleSpeed(travel: real)
    ensures Abs(JointRate(travel, 0.5)) == PEAK_RATE * Abs(travel)
  {
    RatePeak(0.5);
    AbsOfProduct(PEAK_RATE, travel);
  }

  lemma SafeReachesPeaks(travel: real, v: real, a: real, duration: real, k: real)
    requires Safe(travel, v, a, duration) && IsPeakCurvature(k)
    requires 0.0 <= 0.5 - k / 20.0 <= 1.0 && Curvature(0.5 - k / 20.0) == k
    ensures PEAK_RATE * Abs(travel) <= v * duration && k * Abs(travel) <= a * Sqr(duration)
  {
    hide JointRate, JointCurvature, Curvature, Sqr, Abs;
    SafeSpeed(travel, v, a, duration);
    var r := 0.5 - k / 20.0;
    assert SafeAt(travel, v, a, duration, r);
    CurvatureAt(travel, r, k);
  }

  lemma CurvatureAt(travel: real, r: real, k: real)
    requires Curvature(r) == k && k > 0.0
    ensures Abs(JointCurvature(travel, r)) == k * Abs(travel)
  {
    hide Curvature;
    AbsOfProduct(k, travel);
    assert JointCurvature(travel, r) == k * travel;
  }

  lemma PeaksAreSafe(travel: real, v: real, a: real, duration: real, k: real)
    requires IsPeakCurvature(k)
    requires PEAK_RATE * Abs(travel) <= v * duration && k * Abs(travel) <= a * Sqr(duration)
    ensures Safe(travel, v, a, duration)
  {
    hide JointRate, JointCurvature, Sqr, IsPeakCurvature;
    forall r | 0.0 <= r <= 1.0
      ensures SafeAt(travel, v, a, duration, r)
    {
      SpeedBelowPeak(travel, r);
      CurvatureBelowPeak(travel, r, k);
    }
  }

  lemma SpeedBelowPeak(travel: real, r: real)
    requires 0.0 <= r <= 1.0
    ensures Abs(JointRate(travel, r)) <= PEAK_RATE * Abs(travel)
  {
    hide Rate;
    RatePeak(r);
    BelowPeak(travel, Rate(r), PEAK_RATE);
  }

  lemma CurvatureBelowPeak(travel: real, r: real, k: real)
    requires 0.0 <= r <= 1.0 && IsPeakCurvature(k)
    ensures Abs(JointCurvature(travel, r)) <= k * Abs(travel)
  {
    hide Curvature, IsPeakCurvature;
    CurvaturePeak(r, k);
    BelowPeak(travel, Curvature(r), k);
  }

  lemma BelowPeak(travel: real, x: real, k: real)
    requires Abs(x) <= k
    ensures Abs(travel * x) <= k * Abs(travel)
  {
    var b := Abs(travel);
    AbsOfProduct(b, x);
    NonNegative(b, k - Abs(x));
    assert b * x == travel * x || b * x == -(travel * x);
  }

  /** The motion of the first n joints is safe. */
  ghost predicate SafeTo(start: Joints, end: Joints, velocity: Joints, acceleration: Joints, duration: real, n: nat)
    requires n <= JOINT_COUNT
  {
    forall k :: 0 <= k < n ==> Safe(end[k] - start[k], velocity[k], acceleration[k], duration)
  }

  lemma {:induction false} DurationIff(t: Trig, start: Joints, end: Joints, velocity: Joints, acceleration: Joints,
                                       minimum: real, duration: real, n: nat)
    requires t.Valid() && ValidLimits(velocity, acceleration, minimum) && n <= JOINT_COUNT
    ensures DurationTo(t, start, end, velocity, acceleration, minimum, n) <= duration
       <==> minimum <= duration && SafeTo(start, end, velocity, acceleration, duration, n)
  {
    hide Trig.Valid, Safe, VelocityTime, AccelerationTime;
    if n > 0 {
      var k := n - 1;
      DurationIff(t, start, end, velocity, acceleration, minimum, duration, k);
      if duration > 0.0 {
        SafeIff(t, end[k] - start[k], velocity[k], acceleration[k], duration);
      }
    }
  }

  /**
    The computed duration is the least one: a duration is at least the computed one exactly when it reaches the
    minimum and keeps all six joints inside their velocity and acceleration limits throughout.
    */
  lemma LeastSafeDuration(t: Trig, start: Joints, end: Joints, velocity: Joints, acceleration: Joints,
                          minimum: real, duration: real)
    requires t.Valid() && ValidLimits(velocity, acceleration, minimum)
    ensures DurationTo(t, start, end, velocity, acceleration, minimum, JOINT_COUNT) <= duration
       <==> minimum <= duration && SafeTo(start, end, velocity, acceleration, duration, JOINT_COUNT)
  {
    DurationIff(t, start, end, velocity, acceleration, minimum, duration, JOINT_COUNT);
  }

  // ----- The samples -------------------------------------------------------

  lemma RatioSteps(n: int, idx: int)
    requires n >= 2 && 0 <= idx < n
    ensures 0.0 <= Ratio(n, idx) <= 1.0 && Ratio(n, 0) == 0.0 && Ratio(n, n - 1) == 1.0
    ensures Ratio(n, idx + 1) == Ratio(n, idx) + Ratio(n, 1) && Ratio(n, 1) > 0.0
  {
    var d := (n - 1) as real;
    QuotientOrder(idx as real, d, 1.0);
    NonNegativeQuotient(idx as real, d);
    assert (idx as real + 1.0) / d == idx as real / d + 1.0 / d;
    PositiveQuotient(d);
  }

  lemma PositiveQuotient(d: real)
    requires d > 0.0
    ensures 1.0 / d > 0.0 && d / d == 1.0 && 0.0 / d == 0.0
  {
  }

  /** Between two ratios of [0, 1] the blend rises by at most 15/8 of the step. */
  lemma SmoothRises(r: real, q: real)
    requires 0.0 <= r <= q <= 1.0
    ensures 0.0 <= Smooth(q) - Smooth(r) <= PEAK_RATE * (q - r)
  {
    hide Smooth, MeanRate;
    var c, d := (q + r) / 2.0 - 0.5, (q - r) / 2.0;
    RateIsDerivative(c, d);
    MeanRateBounds(c, d);
    assert 0.5 + c + d == q && 0.5 + c - d == r;
    NonNegative(2.0 * d, MeanRate(c, d));
    NonNegative(2.0 * d, PEAK_RATE - MeanRate(c, d));
  }

  lemma SmoothEnds()
    ensures Smooth(0.0) == 0.0 && Smooth(1.0) == 1.0
  {
  }

  /** Both end points are met exactly. */
  lemma SampledEnds(start: Joints, end: Joints, n: int)
    requires n >= 2
    ensures Sample(start, end, Ratio(n, 0)) == start && Sample(start, end, Ratio(n, n - 1)) == end
  {
    hide Ratio, Smooth;
    RatioSteps(n, 0);
    SmoothEnds();
  }

  predicate Between(a: real, x: real, b: real) {
    a <= x <= b || b <= x <= a
  }

  /** The samples of a joint never turn back, so they stay between its end points. */
  lemma SamplesAreMonotone(start: Joints, end: Joints, r: real, q: real, k: nat)
    requires 0.0 <= r <= q <= 1.0 && k < JOINT_COUNT
    ensures Between(start[k], Sample(start, end, r)[k], Sample(start, end, q)[k])
    ensures Between(Sample(start, end, r)[k], Sample(start, end, q)[k], end[k])
  {
    hide SampleJoint;
    JointIsMonotone(start[k], end[k], r, q);
  }

  /** Every sample lies in the box spanned by the end points. */
  lemma SampleInBox(start: Joints, end: Joints, r: real, k: nat)
    requires 0.0 <= r <= 1.0 && k < JOINT_COUNT
    ensures Between(start[k], Sample(start, end, r)[k], end[k])
  {
    hide SampleJoint, Smooth;
    JointIsMonotone(start[k], end[k], r, 1.0);
    SmoothEnds();
    SampleAt(start[k], end[k], 1.0, end[k] - start[k], 1.0);
  }

  lemma JointIsMonotone(a: real, b: real, r: real, q: real)
    requires 0.0 <= r <= q <= 1.0
    ensures Between(a, SampleJoint(a, b, r), SampleJoint(a, b, q))
    ensures Between(SampleJoint(a, b, r), SampleJoint(a, b, q), b)
  {
    hide *;
    SmoothRises(0.0, r);
    SmoothRises(r, q);
    SmoothRises(q, 1.0);
    SmoothEnds();
    SampleAt(a, b, r, b - a, Smooth(r));
    SampleAt(a, b, q, b - a, Smooth(q));
    Towards(a, b, b - a, Smooth(r), Smooth(q), SampleJoint(a, b, r), SampleJoint(a, b, q));
  }

  lemma SampleAt(a: real, b: real, r: real, travel: real, x: real)
    requires travel == b - a && x == Smooth(r)
    ensures SampleJoint(a, b, r) == a + x * travel
  {
    hide Smooth;
  }

  lemma Towards(a: real, b: real, travel: real, x: real, y: real, p: real, q: real)
    requires 0.0 <= x <= y <= 1.0 && b == a + travel && p == a + x * travel && q == a + y * travel
    ensures Between(a, p, q) && Between(p, q, b)
  {
    if travel >= 0.0 {
      NonNegative(x, travel);
      NonNegative(y - x, travel);
      NonNegative(1.0 - y, travel);
    } else {
      NonNegative(x, -travel);
      NonNegative(y - x, -travel);
      NonNegative(1.0 - y, -travel);
    }
  }

  /** The sample period of a trajectory of n samples. */
  function Period(duration: real, n: int): real
    requires n >= 2
  {
    duration / ((n - 1) as real)
  }

  lemma PeriodScales(duration: real, n: int)
    requires n >= 2
    ensures Period(duration, n) == duration * Ratio(n, 1)
  {
    var d := (n - 1) as real;
    assert duration / d == duration * (1.0 / d);
  }

  /** Neighbouring samples of a safe motion are no further apart than the velocity limit allows. */
  lemma SampledSpeed(start: Joints, end: Joints, velocity: Joints, acceleration: Joints, duration: real,
                     n: int, idx: int, k: nat)
    requires n >= 2 && 0 <= idx < n - 1 && k < JOINT_COUNT
    requires SafeTo(start, end, velocity, acceleration, duration, JOINT_COUNT)
    ensures Abs(Sample(start, end, Ratio(n, idx + 1))[k] - Sample(start, end, Ratio(n, idx))[k])
         <= velocity[k] * Period(duration, n)
  {
    hide Smooth, Ratio, Rate, Curvature, Period, Safe, Sqr;
    var travel, step := end[k] - start[k], Ratio(n, 1);
    var r, q := Ratio(n, idx), Ratio(n, idx + 1);
    RatioSteps(n, idx);
    RatioSteps(n, idx + 1);
    SmoothRises(r, q);
    assert Safe(travel, velocity[k], acceleration[k], duration);
    SafeSpeed(travel, velocity[k], acceleration[k], duration);
    PeriodScales(duration, n);
    StepBound(travel, Smooth(q) - Smooth(r), PEAK_RATE, step, velocity[k], duration, Period(duration, n));
    SampleDifference(start[k], travel, Smooth(q), Smooth(r));
  }

  lemma SampleDifference(a: real, travel: real, x: real, y: real)
    ensures (a + x * travel) - (a + y * travel) == travel * (x - y)
  {
  }

  lemma StepBound(travel: real, rise: real, peak: real, step: real, limit: real, duration: real, period: real)
    requires 0.0 <= step && Abs(rise) <= peak * step && peak * Abs(travel) <= limit * duration
    requires period == duration * step
    ensures Abs(travel * rise) <= limit * period
  {
    BelowPeak(travel, rise, peak * step);
    NonNegative(step, limit * duration - peak * Abs(travel));
    assert step * (limit * duration - peak * Abs(travel)) == limit * (duration * step) - peak * step * Abs(travel);
  }

  /** ... and second differences are no larger than the acceleration limit allows. */
  lemma SampledAcceleration(t: Trig, start: Joints, end: Joints, velocity: Joints, acceleration: Joints,
                            duration: real, n: int, idx: int, k: nat)
    requires t.Valid() && n >= 3 && 0 < idx < n - 1 && k < JOINT_COUNT
    requires SafeTo(start, end, velocity, acceleration, duration, JOINT_COUNT)
    ensures Abs(Sample(start, end, Ratio(n, idx + 1))[k] - 2.0 * Sample(start, end, Ratio(n, idx))[k]
                + Sample(start, end, Ratio(n, idx - 1))[k])
         <= acceleration[k] * Sqr(Period(duration, n))
  {
    hide Smooth, Ratio, Rate, Curvature, Sqr, Trig.Valid, PeakCurvature, IsPeakCurvature, Period, Safe;
    var travel, step, r := end[k] - start[k], Ratio(n, 1), Ratio(n, idx);
    var peak := PeakCurvature(t);
    RatioSteps(n, idx - 1);
    RatioSteps(n, idx);
    RatioSteps(n, idx + 1);
    PeakOf(t);
    BendBound(r, step, peak);
    assert Safe(travel, velocity[k], acceleration[k], duration);
    SafeReachesPeaks(travel, velocity[k], acceleration[k], duration, peak);
    PeriodScales(duration, n);
    SquareSign(step);
    SquareOfProduct(duration, step, Period(duration, n));
    StepBound(travel, Bend(r, step), peak, Sqr(step), acceleration[k], Sqr(duration), Sqr(Period(duration, n)));
    SampleBend(start[k], travel, Smooth(r + step), Smooth(r), Smooth(r - step));
  }

  lemma SquareOfProduct(a: real, b: real, c: real)
    requires c == a * b
    ensures Sqr(c) == Sqr(a) * Sqr(b)
  {
  }

  lemma SampleBend(a: real, travel: real, x: real, y: real, z: real)
    ensures (a + x * travel) - 2.0 * (a + y * travel) + (a + z * travel) == travel * (x - 2.0 * y + z)
  {
  }
}
