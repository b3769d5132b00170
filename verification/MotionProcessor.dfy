/** plan_grasp and handle_line of the motion service, on typed messages. */
module MotionProcessor {
  import opened ErrorCodes
  import opened Geometry
  import opened Trigonometry
  import opened Options
  import opened RobotModel
  import opened SolutionSet
  import opened InverseKinematics
  import IkProof
  import opened Trajectory
  import opened Quaternions

  const MAX_TASK_ID := 256
  const NORM_TOLERANCE := 0.000000000001

  datatype Config = Config(initialJoints: Joints, maxVelocity: Joints, maxAcceleration: Joints,
                           minimumDuration: real, maximumForce: real, sampleCount: int)

  datatype Planner = Planner(config: Config, model: Model, worldFromBase: Pose, flangeFromTcp: Pose)

  /** What loading the configuration guarantees. */
  predicate ValidConfig(c: Config) {
    && ValidLimits(c.maxVelocity, c.maxAcceleration, c.minimumDuration)
    && c.maximumForce > 0.0 && 2 <= c.sampleCount <= 4096
  }

  predicate InsideExactly(m: Model, q: Joints) {
    forall k :: 0 <= k < JOINT_COUNT ==> m.jointMin[k] <= q[k] <= m.jointMax[k]
  }

  /** The business data of a grasp command; arrays have whatever length the sender gave them. */
  datatype Payload = Payload(position: seq<real>, orientation: seq<real>, forceLimit: real,
                             currentJointAngles: Option<seq<real>>)

  datatype PlanData = PlanData(taskId: string, phase: string, isSuccess: bool, executed: bool, executionMode: string,
                               referenceSource: string, jointTarget: seq<real>, jointTrajectory: seq<seq<real>>,
                               durationSec: real, samplePeriodSec: real, solutionCount: int, forceLimit: real)

  datatype Reply = Planned(data: PlanData) | Failure(taskId: string, code: int)

  // ----- Reading a command -------------------------------------------------

  function QuaternionOf(orientation: seq<real>): Quaternion
    requires |orientation| == 4
  {
    Quaternion(orientation[3], orientation[0], orientation[1], orientation[2])
  }

  /** The reference joints: the request's own, or else the configured ones. */
  function Reference(c: Config, payload: Payload): seq<real> {
    if payload.currentJointAngles.Some? then payload.currentJointAngles.value else c.initialJoints
  }

  /** Everything plan_grasp checks before it starts solving. */
  predicate ValidCommand(t: Trig, p: Planner, taskId: string, payload: Payload) {
    && 1 <= |taskId| <= MAX_TASK_ID
    && |payload.position| == 3 && |payload.orientation| == 4
    && t.sqrt(NormSquare(QuaternionOf(payload.orientation))) >= NORM_TOLERANCE
    && 0.0 < payload.forceLimit <= p.config.maximumForce
    && |Reference(p.config, payload)| == JOINT_COUNT && InsideExactly(p.model, Reference(p.config, payload))
  }

  /** The pose of the tool centre point in the world. */
  function WorldTcp(t: Trig, payload: Payload): Pose
    requires |payload.position| == 3 && |payload.orientation| == 4
    requires t.sqrt(NormSquare(QuaternionOf(payload.orientation))) >= NORM_TOLERANCE
  {
    var q := QuaternionOf(payload.orientation);
    Pose(RotationMatrix(Normalized(q, t.sqrt(NormSquare(q)))),
         Vec(payload.position[0], payload.position[1], payload.position[2]))
  }

  /** ... seen from the base, for the flange. */
  function Target(t: Trig, p: Planner, payload: Payload): Pose
    requires |payload.position| == 3 && |payload.orientation| == 4
    requires t.sqrt(NormSquare(QuaternionOf(payload.orientation))) >= NORM_TOLERANCE
  {
    Compose(Compose(Inverse(p.worldFromBase), WorldTcp(t, payload)), Inverse(p.flangeFromTcp))
  }

  /** The normalised quaternion makes every target rigid, so the solver never refuses it. */
  lemma CommandTargetIsRigid(t: Trig, p: Planner, taskId: string, payload: Payload)
    requires t.Valid() && ValidCommand(t, p, taskId, payload)
    requires IsRigid(p.worldFromBase) && IsRigid(p.flangeFromTcp)
    ensures IsRigid(Target(t, p, payload)) && IsRigidPose(Target(t, p, payload))
  {
    hide Trig.Valid, IsRigidPose, IsRotation, RotationMatrix, Compose, Inverse, NormSquare;
    var q := QuaternionOf(payload.orientation);
    SumOfSquares(q);
    t.SqrtOf(NormSquare(q));
    NormalizedIsUnit(q, t.sqrt(NormSquare(q)));
    QuaternionIsRotation(Normalized(q, t.sqrt(NormSquare(q))));
    ComposeIsRigid(p.worldFromBase, p.worldFromBase);
    ComposeIsRigid(p.flangeFromTcp, p.flangeFromTcp);
    ComposeIsRigid(Inverse(p.worldFromBase), WorldTcp(t, payload));
    ComposeIsRigid(Compose(Inverse(p.worldFromBase), WorldTcp(t, payload)), Inverse(p.flangeFromTcp));
    IkProof.RigidIsAccepted(Target(t, p, payload));
  }

  // ----- plan_grasp --------------------------------------------------------

  /** The success data of a command: the nearest verified solution, timed and sampled. */
  ghost predicate IsPlan(t: Trig, p: Planner, taskId: string, payload: Payload, solutions: seq<Joints>, data: PlanData)
    requires t.Valid() && ValidConfig(p.config)
  {
    var c, reference := p.config, Reference(p.config, payload);
    && |reference| == JOINT_COUNT && |data.jointTarget| == JOINT_COUNT
    && data.taskId == taskId
    && data.phase == "planned" && data.isSuccess && !data.executed && data.executionMode == "plan_only"
    && data.referenceSource == (if payload.currentJointAngles.Some? then "request" else "config")
    && (exists i: nat :: IsNearest(solutions, reference, i) && solutions[i] == data.jointTarget)
    && data.solutionCount == |solutions|
    && data.forceLimit == payload.forceLimit
    && data.durationSec
       == DurationTo(t, reference, data.jointTarget, c.maxVelocity, c.maxAcceleration, c.minimumDuration, JOINT_COUNT)
    && data.samplePeriodSec == Period(data.durationSec, c.sampleCount)
    && |data.jointTrajectory| == c.sampleCount
    && (forall idx :: 0 <= idx < c.sampleCount ==>
          data.jointTrajectory[idx] == Sample(reference, data.jointTarget, Ratio(c.sampleCount, idx)))
  }

  /** The verified solutions of a command. */
  ghost function Solutions(t: Trig, p: Planner, payload: Payload): seq<Joints>
    requires t.Valid() && SixAxes(p.model) && SupportedOrigins(p.model.origins)
    requires |payload.position| == 3 && |payload.orientation| == 4 && |Reference(p.config, payload)| == JOINT_COUNT
    requires t.sqrt(NormSquare(QuaternionOf(payload.orientation))) >= NORM_TOLERANCE
  {
    IkList(t, p.model, Target(t, p, payload), Reference(p.config, payload))
  }

  /** The answer to a command that passed the input checks. */
  ghost predicate IsAnswer(t: Trig, p: Planner, taskId: string, payload: Payload, solutions: seq<Joints>, reply: Reply)
    requires t.Valid() && ValidConfig(p.config) && ValidCommand(t, p, taskId, payload)
  {
    if !IsRigidPose(Target(t, p, payload)) then reply == Failure(taskId, INVALID_PARAM)
    else if solutions == [] then reply == Failure(taskId, MOTION_EXEC_FAILED)
    else reply.Planned? && IsPlan(t, p, taskId, payload, solutions, reply.data)
  }

  method PlanGrasp(t: Trig, p: Planner, taskId: string, payload: Payload) returns (reply: Reply)
    requires t.Valid() && SixAxes(p.model) && SupportedOrigins(p.model.origins) && ValidConfig(p.config)
    ensures !ValidCommand(t, p, taskId, payload) ==> reply == Failure(taskId, INVALID_PARAM)
    ensures ValidCommand(t, p, taskId, payload) ==> IsAnswer(t, p, taskId, payload, Solutions(t, p, payload), reply)
  {
    hide Trig.Valid, SupportedOrigins, IsRigidPose, Target, IkList, DurationTo, Sample, Ratio, Period, NormSquare,
         IsNearest;
    if !ValidCommand(t, p, taskId, payload) {
      return Failure(taskId, INVALID_PARAM);
    }
    var c := p.config;
    var reference: Joints := Reference(c, payload);
    var target := Target(t, p, payload);
    var listed := ComputeIk(t, p.model, target, reference);
    if listed == None {
      return Failure(taskId, INVALID_PARAM);
    }
    var selected := SelectNearest(listed.value, reference);
    if selected == None {
      return Failure(taskId, MOTION_EXEC_FAILED);
    }
    var duration := CalculateDuration(t, reference, selected.value, c.maxVelocity, c.maxAcceleration,
                                      c.minimumDuration);
    var samples := JointPolyTraj(reference, selected.value, c.sampleCount);
    reply := Planned(PlanData(taskId, "planned", true, false, "plan_only",
                              if payload.currentJointAngles.Some? then "request" else "config",
                              selected.value, samples.value, duration.value, Period(duration.value, c.sampleCount),
                              |listed.value|, payload.forceLimit));
  }

  /** A planned motion keeps every joint inside its velocity and acceleration limits, sample by sample. */
  lemma PlannedMotionIsSafe(t: Trig, p: Planner, taskId: string, payload: Payload, solutions: seq<Joints>,
                            data: PlanData, idx: int, k: nat)
    requires t.Valid() && ValidConfig(p.config) && IsPlan(t, p, taskId, payload, solutions, data) && k < JOINT_COUNT
    requires 0 <= idx < p.config.sampleCount - 1
    ensures data.durationSec >= p.config.minimumDuration
    ensures |data.jointTrajectory[idx]| == |data.jointTrajectory[idx + 1]| == JOINT_COUNT
    ensures Abs(data.jointTrajectory[idx + 1][k] - data.jointTrajectory[idx][k])
         <= p.config.maxVelocity[k] * data.samplePeriodSec
    ensures idx > 0 ==>
              |data.jointTrajectory[idx - 1]| == JOINT_COUNT
              && Abs(data.jointTrajectory[idx + 1][k] - 2.0 * data.jointTrajectory[idx][k]
                     + data.jointTrajectory[idx - 1][k])
              <= p.config.maxAcceleration[k] * Sqr(data.samplePeriodSec)
  {
    hide Trig.Valid, DurationTo, Sample, Ratio, Period, IsNearest, SafeTo, Sqr, Abs;
    var c, reference := p.config, Reference(p.config, payload);
    LeastSafeDuration(t, reference, data.jointTarget, c.maxVelocity, c.maxAcceleration, c.minimumDuration,
                      data.durationSec);
    SampledSpeed(reference, data.jointTarget, c.maxVelocity, c.maxAcceleration, data.durationSec, c.sampleCount,
                 idx, k);
    if idx > 0 {
      SampledAcceleration(t, reference, data.jointTarget, c.maxVelocity, c.maxAcceleration, data.durationSec,
                          c.sampleCount, idx, k);
    }
  }

  // ----- handle_line -------------------------------------------------------

  /** A received line: one that does not parse or has a bad envelope, or a typed message of the backend. */
  datatype Incoming =
    | Garbage
    | RegisterAck(code: int)
    | HeartbeatAck
    | ErrorReport
    | Business(grasp: bool, code: int, taskId: string, payload: Payload)

  /** Whether the last register_ack of a history was positive. */
  function RegisteredAfter(history: seq<Incoming>): bool {
    if history == [] then false
    else
      var last := history[|history| - 1];
      if last.RegisterAck? then last.code == 0 else RegisteredAfter(history[..|history| - 1])
  }

  class Processor {
    const planner: Planner
    var registered: bool
    ghost var history: seq<Incoming>

    ghost predicate Valid()
      reads this
    {
      && SixAxes(planner.model) && SupportedOrigins(planner.model.origins) && ValidConfig(planner.config)
      && registered == RegisteredAfter(history)
    }

    constructor (planner: Planner)
      requires SixAxes(planner.model) && SupportedOrigins(planner.model.origins) && ValidConfig(planner.config)
      ensures Valid() && this.planner == planner && history == []
    {
      this.planner := planner;
      registered, history := false, [];
    }

    /** Answers one line; a plan is produced only for a grasp command after a positive registration. */
    method HandleLine(t: Trig, line: Incoming) returns (reply: Option<Reply>)
      requires t.Valid() && Valid()
      modifies this
      ensures Valid() && history == old(history) + [line]
      ensures reply == None <==> line.RegisterAck? || line.HeartbeatAck? || line.ErrorReport?
      ensures line.Garbage? ==> reply == Some(Failure("", INVALID_MESSAGE))
      ensures line.Business? && !RegisteredAfter(old(history)) ==> reply == Some(Failure(line.taskId, NOT_REGISTERED))
      ensures line.Business? && RegisteredAfter(old(history)) && (!line.grasp || line.code != 0) ==>
                reply == Some(Failure(line.taskId, INVALID_PARAM))
      ensures line.Business? && RegisteredAfter(old(history)) && line.grasp && line.code == 0 ==>
                if ValidCommand(t, planner, line.taskId, line.payload)
                then reply.Some? && IsAnswer(t, planner, line.taskId, line.payload,
                                             Solutions(t, planner, line.payload), reply.value)
                else reply == Some(Failure(line.taskId, INVALID_PARAM))
      ensures reply.Some? && reply.value.Planned? ==>
                line.Business? && line.grasp && line.code == 0 && RegisteredAfter(old(history))
    {
      hide Trig.Valid, SupportedOrigins, IsAnswer, ValidCommand, ValidConfig, Solutions, Target, IsRigidPose;
      history := history + [line];
      assert history[..|history| - 1] == old(history);
      match line
      case Garbage => return Some(Failure("", INVALID_MESSAGE));
      case RegisterAck(code) =>
        registered := code == 0;
        return None;
      case HeartbeatAck => return None;
      case ErrorReport => return None;
      case Business(grasp, code, taskId, payload) =>
        if !registered {
          return Some(Failure(taskId, NOT_REGISTERED));
        }
        if !grasp || code != 0 {
          return Some(Failure(taskId, INVALID_PARAM));
        }
        var planned := PlanGrasp(t, planner, taskId, payload);
        return Some(planned);
    }
  }
}
