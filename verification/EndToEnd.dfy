/** From the motion service's success message to the gateway's record. */
module EndToEnd {
  import opened Trigonometry
  import opened Options
  import opened Quaternions
  import opened RobotModel
  import opened InverseKinematics
  import opened MotionProcessor
  import opened PlanValidation
  import opened TaskRepository
  import opened KinematicsAdapter
  import opened Gateway
  import opened GatewayProof
  import opened Outcomes
  import opened ToolPose

  /** The message a success is sent back in. */
  function SuccessMessage(data: PlanData): Message {
    Message(Motion, MotionStatus, 0, Shaped(data))
  }

  /**
    A submission that is taken up is recorded first, then sent, and then awaits its reply: six steps of the gateway,
    one after the other, lead from the request to the command.
    */
  lemma SubmissionIsSent(s: Settings, g: State, id: string, request: Payload)
    returns (taken: State, recorded: State, scheduled: State, started: State, written: State, sent: State)
    requires Inv(s, g) && Enabled(g, Submit(id, request)) && ValidRequest(s, request)
    requires g.shutdown == Open && g.active == None && g.online
    ensures Follows(s, g, Submit(id, request), taken) && Follows(s, taken, InsertCommitted, recorded)
    ensures Follows(s, recorded, SubmitResumes, scheduled) && Follows(s, scheduled, WorkerStarts, started)
    ensures Follows(s, started, CommandWritten, written) && Follows(s, written, SendSucceeds, sent)
    ensures recorded.table == g.table[id := Record(Planning, request, None, None)] && recorded.sent == g.sent
    ensures sent.table == recorded.table && sent.sent == g.sent + [id] && AwaitsReply(sent, id, request)
  {
    hide ValidRequest, RecordsFit, LateFits, HistoryFits, Correlated, Agreement;
    taken := After(s, g, Submit(id, request));
    recorded := After(s, taken, InsertCommitted);
    scheduled := After(s, recorded, SubmitResumes);
    started := After(s, scheduled, WorkerStarts);
    written := After(s, started, CommandWritten);
    sent := After(s, written, SendSucceeds);
  }

  /**
    A success the planner returns for the gateway's own command settles the waiting reply of that task, passes
    validation and is stored as planned, and no other record changes: no plan is lost between planner and table.
    */
  lemma SuccessIsStored(t: Trig, p: Planner, s: Settings, g: State, id: string, request: Payload, reply: Reply)
    returns (received: State, resumed: State, stored: State)
    requires t.Valid() && SixAxes(p.model) && SupportedOrigins(p.model.origins) && ValidConfig(p.config)
    requires SharesConfiguration(s, p) && ValidCommand(t, p, id, request)
    requires IsAnswer(t, p, id, request, Solutions(t, p, request), reply) && reply.Planned?
    requires Inv(s, g) && AwaitsReply(g, id, request)
    ensures Follows(s, g, Receive(SuccessMessage(reply.data)), received)
    ensures Follows(s, received, WorkerResumes, resumed)
    ensures Follows(s, resumed, FinishCommitted, stored)
    ensures stored.table == g.table[id := Record(Completed, request, Some(reply.data), None)]
  {
    hide Trig.Valid, SupportedOrigins, ValidConfig, SharesConfiguration, NormSquare, IsPlan, IkList, Target, Accepts,
         IsRigidPose, RecordsFit, LateFits, HistoryFits, Correlated, SubmissionFits, ShutdownFits, ActiveFits,
         Agreement;
    PlannerSatisfiesValidator(t, p, s, id, request, Target(t, p, request), reply.data);
    received := After(s, g, Receive(SuccessMessage(reply.data)));
    assert received.pending == g.pending[id := Resolved(Shaped(reply.data))];
    resumed := After(s, received, WorkerResumes);
    assert resumed.worker == Finishing(id, Completed, Some(reply.data), None, false);
    stored := After(s, resumed, FinishCommitted);
  }

  /** What the request schema guarantees: list lengths, an orientation with a direction, a positive force. */
  predicate MeetsSchema(t: Trig, request: Payload) {
    && IsPoseCommand(t, request) && request.forceLimit > 0.0
    && (request.currentJointAngles.Some? ==> |request.currentJointAngles.value| == JOINT_COUNT)
  }

  /** The planner starts only with initial joints inside the limits; the gateway reads the same force limit. */
  predicate SharesEverything(s: Settings, p: Planner) {
    && SharesConfiguration(s, p) && s.maximumForce == p.config.maximumForce
    && InsideExactly(p.model, p.config.initialJoints)
  }

  /**
    The planner accepts what the gateway admitted exactly when the given joint angles, if any, are inside the limits
    without the gateway's slack.
    */
  lemma AdmittedIsPlannableIff(t: Trig, s: Settings, p: Planner, id: string, request: Payload)
    requires MeetsSchema(t, request) && SharesEverything(s, p) && ValidRequest(s, request) && 1 <= |id| <= 256
    ensures ValidCommand(t, p, id, request)
       <==> (request.currentJointAngles.Some? ==> InsideExactly(p.model, request.currentJointAngles.value))
  {
    hide NormSquare, Inside;
  }

  /** A joint angle in the slack is admitted by the gateway and refused by the planner. */
  lemma SlackIsRefused(t: Trig, s: Settings, p: Planner, id: string, request: Payload)
    requires MeetsSchema(t, request) && SharesEverything(s, p) && ValidRequest(s, request) && 1 <= |id| <= 256
    ensures var q := p.config.initialJoints[0 := p.model.jointMax[0] + 0.0000000005];
            var r := request.(currentJointAngles := Some(q));
            MeetsSchema(t, r) && ValidRequest(s, r) && !ValidCommand(t, p, id, r)
  {
    hide NormSquare;
    var q := p.config.initialJoints[0 := p.model.jointMax[0] + 0.0000000005];
    assert !InsideExactly(p.model, q) by {
      assert q[0] > p.model.jointMax[0];
    }
    forall k | 0 <= k < JOINT_COUNT
      ensures JointInside(s, q, k)
    {
    }
  }
}
