/** The gateway's check of a planning result, and why every plan of the motion service passes it. */
module PlanValidation {
  import opened Geometry
  import opened Trigonometry
  import opened RobotModel
  import opened JointLifting
  import opened SolutionSet
  import opened InverseKinematics
  import opened Trajectory
  import opened MotionProcessor

  const LIMIT_SLACK := 0.000000001
  const JOINT_AGREEMENT := 0.0000001
  const PERIOD_RELATIVE := 0.0000001
  const PERIOD_ABSOLUTE := 0.000000001

  datatype Settings = Settings(maximumForce: real, initialJoints: Joints, jointMin: Joints, jointMax: Joints)

  // ----- The declared shape of a result ------------------------------------

  predicate WellFormed(data: PlanData) {
    && data.phase == "planned" && data.isSuccess && !data.executed && data.executionMode == "plan_only"
    && (data.referenceSource == "request" || data.referenceSource == "config")
    && |data.jointTarget| == JOINT_COUNT
    && 2 <= |data.jointTrajectory| <= 4096
    && (forall i :: 0 <= i < |data.jointTrajectory| ==> |data.jointTrajectory[i]| == JOINT_COUNT)
    && data.durationSec > 0.0 && data.samplePeriodSec > 0.0 && data.solutionCount > 0 && data.forceLimit > 0.0
  }

  // ----- _validate_limits --------------------------------------------------

  predicate JointInside(s: Settings, angles: seq<real>, k: nat)
    requires k < |angles| && k < JOINT_COUNT
  {
    s.jointMin[k] - LIMIT_SLACK <= angles[k] <= s.jointMax[k] + LIMIT_SLACK
  }

  predicate Inside(s: Settings, angles: seq<real>) {
    forall k :: 0 <= k < JOINT_COUNT && k < |angles| ==> JointInside(s, angles, k)
  }

  /** Joint by joint, as far as both lists go. */
  method ValidateLimits(s: Settings, angles: seq<real>) returns (ok: bool)
    ensures ok <==> Inside(s, angles)
  {
    for k := 0 to JOINT_COUNT
      invariant forall j :: 0 <= j < k && j < |angles| ==> JointInside(s, angles, j)
    {
      if k < |angles| && !JointInside(s, angles, k) {
        return false;
      }
    }
    return true;
  }

  // ----- _validate_result --------------------------------------------------

  predicate JointsAgree(a: seq<real>, b: seq<real>) {
    forall k :: 0 <= k < |a| && k < |b| ==> Near(a[k], b[k])
  }

  predicate Near(a: real, b: real) {
    Abs(a - b) <= JOINT_AGREEMENT
  }

  predicate PeriodsAgree(a: real, b: real) {
    Abs(a - b) <= Max(PERIOD_RELATIVE * Max(Abs(a), Abs(b)), PERIOD_ABSOLUTE)
  }

  function ExpectedReference(s: Settings, payload: Payload): seq<real> {
    if payload.currentJointAngles.Some? then payload.currentJointAngles.value else s.initialJoints
  }

  predicate Accepts(s: Settings, payload: Payload, data: PlanData) {
    && WellFormed(data)
    && data.referenceSource == (if payload.currentJointAngles.Some? then "request" else "config")
    && Inside(s, data.jointTarget)
    && (forall i :: 0 <= i < |data.jointTrajectory| ==> Inside(s, data.jointTrajectory[i]))
    && JointsAgree(data.jointTrajectory[0], ExpectedReference(s, payload))
    && JointsAgree(data.jointTrajectory[|data.jointTrajectory| - 1], data.jointTarget)
    && PeriodsAgree(Period(data.durationSec, |data.jointTrajectory|), data.samplePeriodSec)
    && data.forceLimit == payload.forceLimit
  }

  /** The checks in the order they are made; the first one that fails rejects the result. */
  method ValidateResult(s: Settings, payload: Payload, data: PlanData) returns (ok: bool)
    ensures ok <==> Accepts(s, payload, data)
  {
    hide Inside, JointsAgree, PeriodsAgree, Period;
    if !WellFormed(data) {
      return false;
    }
    var expectedSource := if payload.currentJointAngles.Some? then "request" else "config";
    if data.referenceSource != expectedSource {
      return false;
    }
    var inside := ValidateLimits(s, data.jointTarget);
    if !inside {
      return false;
    }
    var n := |data.jointTrajectory|;
    for i := 0 to n
      invariant forall j :: 0 <= j < i ==> Inside(s, data.jointTrajectory[j])
    {
      inside := ValidateLimits(s, data.jointTrajectory[i]);
      if !inside {
        return false;
      }
    }
    if !JointsAgree(data.jointTrajectory[0], ExpectedReference(s, payload)) {
      return false;
    }
    if !JointsAgree(data.jointTrajectory[n - 1], data.jointTarget) {
      return false;
    }
    if !PeriodsAgree(Period(data.durationSec, n), data.samplePeriodSec) {
      return false;
    }
    return data.forceLimit == payload.forceLimit;
  }

  /** Every joint of a full list lies inside the shared limits, with a slack of 1e-9. */
  predicate InLimits(s: Settings, q: seq<real>) {
    |q| == JOINT_COUNT && forall k :: 0 <= k < JOINT_COUNT ==>
      s.jointMin[k] - 0.000000001 <= q[k] <= s.jointMax[k] + 0.000000001
  }

  predicate AllWithin(a: seq<real>, b: seq<real>, e: real) {
    |a| == |b| && forall k :: 0 <= k < |a| ==> b[k] - e <= a[k] <= b[k] + e
  }

  /** The shape of a planned, unexecuted result, in its own fields. */
  predicate IsPlannedShape(data: PlanData) {
    && data.phase == "planned" && data.isSuccess && !data.executed && data.executionMode == "plan_only"
    && |data.jointTarget| == JOINT_COUNT && 2 <= |data.jointTrajectory| <= 4096
    && data.durationSec > 0.0 && data.samplePeriodSec > 0.0 && data.solutionCount > 0 && data.forceLimit > 0.0
  }

  /**
    What acceptance means in numbers: a planned shape whose source and force are the request's, whose target and
    samples lie in the limits, which starts within 1e-7 of the reference and ends within 1e-7 of the target, and whose
    sample period, times the number of steps, is the duration up to the tolerances of the comparison.
    */
  lemma AcceptsIff(s: Settings, payload: Payload, data: PlanData)
    requires payload.currentJointAngles.Some? ==> |payload.currentJointAngles.value| == JOINT_COUNT
    ensures Accepts(s, payload, data)
       <==> && IsPlannedShape(data) && data.forceLimit == payload.forceLimit
            && data.referenceSource == (if payload.currentJointAngles.Some? then "request" else "config")
            && InLimits(s, data.jointTarget)
            && (forall i :: 0 <= i < |data.jointTrajectory| ==> InLimits(s, data.jointTrajectory[i]))
            && AllWithin(data.jointTrajectory[0],
                         if payload.currentJointAngles.Some? then payload.currentJointAngles.value else s.initialJoints,
                         0.0000001)
            && AllWithin(data.jointTrajectory[|data.jointTrajectory| - 1], data.jointTarget, 0.0000001)
            && PeriodsAgree(data.durationSec / ((|data.jointTrajectory| - 1) as real), data.samplePeriodSec)
  {
    hide PeriodsAgree, Inside, InLimits, AllWithin, JointsAgree;
    InsideIff(s, data.jointTarget);
    forall i | 0 <= i < |data.jointTrajectory|
      ensures |data.jointTrajectory[i]| == JOINT_COUNT ==>
                (Inside(s, data.jointTrajectory[i]) <==> InLimits(s, data.jointTrajectory[i]))
      ensures InLimits(s, data.jointTrajectory[i]) ==> |data.jointTrajectory[i]| == JOINT_COUNT
    {
      InsideIff(s, data.jointTrajectory[i]);
    }
    if |data.jointTrajectory| >= 2 {
      AgreeIff(data.jointTrajectory[0], ExpectedReference(s, payload));
      AgreeIff(data.jointTrajectory[|data.jointTrajectory| - 1], data.jointTarget);
    }
  }

  lemma InsideIff(s: Settings, q: seq<real>)
    ensures |q| == JOINT_COUNT ==> (Inside(s, q) <==> InLimits(s, q))
    ensures InLimits(s, q) ==> |q| == JOINT_COUNT
  {
    forall k | 0 <= k < JOINT_COUNT && k < |q|
      ensures JointInside(s, q, k) <==> s.jointMin[k] - 0.000000001 <= q[k] <= s.jointMax[k] + 0.000000001
    {
    }
  }

  lemma AgreeIff(a: seq<real>, b: seq<real>)
    ensures |a| == |b| ==> (JointsAgree(a, b) <==> AllWithin(a, b, 0.0000001))
    ensures AllWithin(a, b, 0.0000001) ==> |a| == |b|
  {
    forall k | 0 <= k < |a| && k < |b|
      ensures Near(a[k], b[k]) <==> b[k] - 0.0000001 <= a[k] <= b[k] + 0.0000001
    {
    }
  }

  /** Periods agree when they differ by 1e-9 at most, or by one part in ten million of the larger one. */
  lemma PeriodsAgreeIff(a: real, b: real)
    requires a > 0.0 && b > 0.0
    ensures PeriodsAgree(a, b)
       <==> var gap := if a > b then a - b else b - a;
            gap <= 0.000000001 || gap <= 0.0000001 * a || gap <= 0.0000001 * b
  {
  }

  // ----- Planner and validator agree ---------------------------------------

  /** Both sides read the same model limits and initial joints. */
  predicate SharesConfiguration(s: Settings, p: Planner) {
    s.initialJoints == p.config.initialJoints && s.jointMin == p.model.jointMin && s.jointMax == p.model.jointMax
  }

  lemma SampleIsInside(s: Settings, reference: Joints, target: Joints, ratio: real)
    requires forall k :: 0 <= k < JOINT_COUNT ==> s.jointMin[k] <= reference[k] <= s.jointMax[k]
    requires forall k :: 0 <= k < JOINT_COUNT ==>
               s.jointMin[k] - ALGEBRA_TOLERANCE <= target[k] <= s.jointMax[k] + ALGEBRA_TOLERANCE
    requires 0.0 <= ratio <= 1.0
    ensures Inside(s, Sample(reference, target, ratio)) && Inside(s, target)
  {
    hide SampleJoint;
    forall k | 0 <= k < JOINT_COUNT
      ensures JointInside(s, Sample(reference, target, ratio), k)
    {
      SampleInBox(reference, target, ratio, k);
    }
  }

  lemma AgreesWithItself(a: seq<real>, x: real)
    ensures JointsAgree(a, a) && PeriodsAgree(x, x)
  {
  }

  lemma ListedAreInside(t: Trig, m: Model, target: Pose, reference: Joints)
    requires t.Valid() && SixAxes(m) && SupportedOrigins(m.origins)
    ensures var solutions := IkList(t, m, target, reference);
            forall i :: 0 <= i < |solutions| ==> WithinLimits(m, solutions[i])
  {
    hide SupportedOrigins, Duplicate, Candidates, AppendedAll, Represented, Verifies, WithinLimits;
    SolutionListInvariant(t, m, target, reference, Candidates(t, m, target, reference));
  }

  /**
    Every success message plan_grasp builds for a gateway payload passes the gateway's validator: the lifting slack
    fits inside the validator's, the samples stay between the end points, the end points and the period agree
    exactly, and source and force are the request's own.
    */
  lemma PlannerSatisfiesValidator(t: Trig, p: Planner, s: Settings, taskId: string, payload: Payload, target: Pose,
                                  data: PlanData)
    requires t.Valid() && SixAxes(p.model) && SupportedOrigins(p.model.origins) && ValidConfig(p.config)
    requires SharesConfiguration(s, p) && ValidCommand(t, p, taskId, payload)
    requires IsPlan(t, p, taskId, payload, IkList(t, p.model, target, Reference(p.config, payload)), data)
    ensures Accepts(s, payload, data) && data.taskId == taskId
  {
    hide Trig.Valid, SupportedOrigins, DurationTo, Sample, Ratio, JointsAgree, PeriodsAgree, Inside, IkList,
         ValidLimits;
    var n, reference: Joints := p.config.sampleCount, Reference(p.config, payload);
    var solutions := IkList(t, p.model, target, reference);
    ListedAreInside(t, p.model, target, reference);
    var i: nat :| IsNearest(solutions, reference, i) && solutions[i] == data.jointTarget;
    assert WithinLimits(p.model, solutions[i]);
    forall idx | 0 <= idx < n
      ensures Inside(s, data.jointTrajectory[idx]) && Inside(s, data.jointTarget)
    {
      RatioSteps(n, idx);
      SampleIsInside(s, reference, data.jointTarget, Ratio(n, idx));
    }
    assert data.jointTrajectory[0] == Sample(reference, data.jointTarget, Ratio(n, 0));
    assert Inside(s, data.jointTrajectory[0]) && Inside(s, data.jointTarget);
    SampledEnds(reference, data.jointTarget, n);
    AgreesWithItself(reference, data.samplePeriodSec);
    AgreesWithItself(data.jointTarget, data.samplePeriodSec);
    PositiveTimes(t, reference, data.jointTarget, p.config, data.durationSec);
  }

  lemma PositiveTimes(t: Trig, reference: Joints, target: Joints, c: Config, duration: real)
    requires t.Valid() && ValidConfig(c)
    requires duration
          == DurationTo(t, reference, target, c.maxVelocity, c.maxAcceleration, c.minimumDuration, JOINT_COUNT)
    ensures duration > 0.0 && Period(duration, c.sampleCount) > 0.0
  {
    hide Trig.Valid, DurationTo, SafeTo;
    LeastSafeDuration(t, reference, target, c.maxVelocity, c.maxAcceleration, c.minimumDuration, duration);
    RatioSteps(c.sampleCount, 0);
    PeriodScales(duration, c.sampleCount);
    PositiveProduct(duration, Ratio(c.sampleCount, 1), Period(duration, c.sampleCount));
  }
}
