/** What every interleaving of the gateway keeps. */
module GatewayProof {
  import opened ErrorCodes
  import opened Options
  import opened MotionProcessor
  import opened RobotModel
  import opened PlanValidation
  import opened TaskRepository
  import opened KinematicsAdapter
  import opened Gateway

  // ----- The invariant -----------------------------------------------------

  /** A task the worker may still plan: recorded, unfinished, and not withdrawn. */
  ghost predicate Live(g: State, id: string, request: Payload) {
    IsPlanning(g.table, id) && g.table[id].request == request && id !in g.withdrawn
  }

  /** A result that may be stored as planned: it names its task and passed validation against its request. */
  ghost predicate ValidOutcome(s: Settings, table: Table, id: string, status: Status, result: Option<PlanData>) {
    status == Completed ==>
      id in table && result.Some? && result.value.taskId == id && Accepts(s, table[id].request, result.value)
  }

  ghost predicate SubmissionFits(g: State) {
    match g.submission
    case Idle => true
    case Creating(id, request, inserted, cancelled) =>
      && g.active == Some(id) && g.worker == NoWorker && id in g.used && id !in g.sent
      && (inserted ==> IsPlanning(g.table, id) && g.table[id].request == request)
      && (!inserted ==> id !in g.table)
      && (cancelled <==> id in g.withdrawn)
    case Withdrawing(id, written) =>
      && g.active == Some(id) && g.worker == NoWorker && id in g.table && id in g.withdrawn && id !in g.sent
      && (written <==> g.table[id].status != Planning)
  }

  ghost predicate WorkerFits(s: Settings, g: State) {
    match g.worker
    case NoWorker => g.pending.Keys == {}
    case Scheduled(id, request) =>
      g.active == Some(id) && Live(g, id, request) && g.pending.Keys == {} && id !in g.sent
    case Sending(id, request, written) =>
      g.active == Some(id) && Live(g, id, request) && g.pending.Keys == {id} && (!written ==> id !in g.sent)
    case Awaiting(id, request) =>
      g.active == Some(id) && Live(g, id, request) && g.pending.Keys == {id}
    case Finishing(id, status, result, error, written) =>
      && g.active == Some(id) && id in g.table && g.pending.Keys == {} && status != Planning
      && (written <==> g.table[id].status != Planning) && ValidOutcome(s, g.table, id, status, result)
  }

  ghost predicate ShutdownFits(g: State) {
    && (g.shutdown.Stopping? || g.shutdown.Clearing? || g.shutdown.Closed? ==> g.submission == Idle)
    && (g.shutdown.Clearing? ==> g.active == Some(g.shutdown.id) && g.worker == NoWorker)
    && (g.shutdown.Clearing? && g.shutdown.written ==> !IsPlanning(g.table, g.shutdown.id))
    && (g.shutdown.Closed? ==> g.active == None)
    && (g.stopWorker ==> g.shutdown == Stopping)
    && (g.worker == NoWorker ==> !g.stopWorker)
    && (g.shutdown == Stopping && (g.worker.Scheduled? || InPlan(g)) ==> g.stopWorker)
  }

  /** Somebody is always in charge of the active task, and an idle gateway holds nothing. */
  ghost predicate ActiveFits(g: State) {
    && (g.active.Some? ==> g.active.value in g.used && g.active.value !in g.orphans)
    && (g.active == None ==> g.submission == Idle && g.worker == NoWorker)
    && (g.active.Some? && g.submission == Idle && g.worker == NoWorker ==> g.shutdown.Stopping? || g.shutdown.Clearing?)
    && (!g.up ==> g.active == None && g.late == map[] && g.shutdown == Open)
  }

  ghost predicate NoRepeats(sent: seq<string>) {
    forall i, j :: 0 <= i < j < |sent| ==> sent[i] != sent[j]
  }

  ghost predicate HistoryFits(table: Table, used: set<string>, sent: seq<string>, withdrawn: set<string>,
                              orphans: set<string>) {
    && table.Keys <= used && orphans <= used && withdrawn <= used
    && NoRepeats(sent)
    && forall id :: id in sent ==> id in table && id !in withdrawn
  }

  ghost predicate LateWriteFits(s: Settings, table: Table, withdrawn: set<string>, id: string, w: LateWrite) {
    match w
    case LateCreate(_) => id !in table && id in withdrawn
    case LateFinish(status, result, _) =>
      id in table && status != Planning && ValidOutcome(s, table, id, status, result)
  }

  ghost predicate LateFits(s: Settings, table: Table, withdrawn: set<string>, orphans: set<string>,
                           late: map<string, LateWrite>) {
    && late.Keys <= orphans
    && forall id :: id in late ==> LateWriteFits(s, table, withdrawn, id, late[id])
  }

  /** Every stored plan names its own task and passed validation against the stored request. */
  ghost predicate RecordsFit(s: Settings, table: Table) {
    forall id :: id in table ==> ValidOutcome(s, table, id, table[id].status, table[id].result)
  }

  /** A task left planning is the active one, or was abandoned. */
  ghost predicate Agreement(g: State) {
    g.up ==> PlanningIds(g.table) <= ActiveSet(g) + g.orphans
  }

  ghost predicate Inv(s: Settings, g: State) {
    && SubmissionFits(g) && WorkerFits(s, g) && ShutdownFits(g) && ActiveFits(g)
    && HistoryFits(g.table, g.used, g.sent, g.withdrawn, g.orphans)
    && LateFits(s, g.table, g.withdrawn, g.orphans, g.late)
    && RecordsFit(s, g.table) && Correlated(g.pending) && Agreement(g)
  }

  /** At most one command is added to those written, for the recorded and unfinished task of the worker. */
  ghost predicate SentAhead(g: State, h: State) {
    || h.sent == g.sent
    || (&& g.worker.Sending? && h.sent == g.sent + [g.worker.id] && g.worker.id !in g.sent
        && IsPlanning(g.table, g.worker.id) && g.table[g.worker.id].request == g.worker.request)
  }

  /** History only grows: no task is forgotten, no final record changes, no command is unsent. */
  ghost predicate Evolves(g: State, h: State) {
    && (h.table == g.table || Preserves(g.table, h.table)) && SentAhead(g, h)
    && g.used <= h.used && g.withdrawn <= h.withdrawn
  }

  ghost predicate Keeps(s: Settings, g: State, h: State) {
    Inv(s, h) && Evolves(g, h) && h.up && h.orphans == g.orphans
  }

  ghost predicate Abandons(s: Settings, g: State, h: State) {
    && Inv(s, h) && Evolves(g, h) && h.up
    && h.orphans == g.orphans + ActiveSet(g) && h.active == None && h.table == g.table
  }

  // ----- Submission keeps it -----------------------------------------------

  /** A refusal changes nothing; an admission needs an open, idle and connected gateway, and files nothing yet. */
  lemma SubmitKeeps(s: Settings, g: State, id: string, request: Payload)
    requires Inv(s, g) && g.up && LockFree(g) && id !in g.used
    ensures Keeps(s, g, Submitted(s, g, id, request))
    ensures Admit(s, g, request) != Admitted ==> Submitted(s, g, id, request) == g
    ensures Admit(s, g, request) == Admitted ==>
              var h := Submitted(s, g, id, request);
              && g.online && g.shutdown == Open && ValidRequest(s, request) && PlanningIds(g.table) <= g.orphans
              && h.active == Some(id) && h.table == g.table && h.sent == g.sent && h.pending == map[]
  {
    hide Accepts, ValidRequest, RecordsFit, LateFits, Correlated, NoRepeats;
  }

  /** What submit demands of a request, in numbers: the force, and every given joint angle with a slack of 1e-9. */
  lemma ValidRequestIff(s: Settings, request: Payload)
    ensures ValidRequest(s, request)
       <==> request.forceLimit <= s.maximumForce
            && (request.currentJointAngles.Some? ==>
                  var q := request.currentJointAngles.value;
                  forall k :: 0 <= k < JOINT_COUNT && k < |q| ==>
                    s.jointMin[k] - 0.000000001 <= q[k] <= s.jointMax[k] + 0.000000001)
  {
    if request.currentJointAngles.Some? {
      var q := request.currentJointAngles.value;
      forall k | 0 <= k < JOINT_COUNT && k < |q|
        ensures JointInside(s, q, k)
           <==> s.jointMin[k] - 0.000000001 <= q[k] <= s.jointMax[k] + 0.000000001
      {
      }
    }
  }

  /**
    A submission is taken up exactly when its request is valid and the gateway open, idle and online; then its task is
    active and its record is being created. Each other case has its own status and code, in this order.
    */
  lemma SubmissionIsTakenIff(s: Settings, g: State, id: string, request: Payload)
    requires Enabled(g, Submit(id, request))
    ensures var taken := ValidRequest(s, request) && g.shutdown == Open && g.active == None && g.online;
            && (After(s, g, Submit(id, request)) != g <==> taken)
            && (taken ==> After(s, g, Submit(id, request))
                          == g.(active := Some(id), used := g.used + {id},
                                submission := Creating(id, request, false, false)))
    ensures Admit(s, g, request)
         == if !ValidRequest(s, request) then Refused(422, INVALID_PARAM)
            else if g.shutdown == Open && g.active.Some? then Refused(409, ROBOT_BUSY)
            else if g.shutdown != Open || !g.online then Refused(503, TARGET_OFFLINE)
            else Admitted
  {
    hide ValidRequest;
  }

  lemma InsertKeeps(s: Settings, g: State)
    requires Inv(s, g) && g.up && g.submission.Creating? && !g.submission.inserted
    ensures Keeps(s, g, Inserted(g))
  {
    hide Accepts, Correlated, NoRepeats;
    CreationPreserves(g.table, g.submission.id, g.submission.request);
  }

  lemma SubmitResumesKeeps(s: Settings, g: State)
    requires Inv(s, g) && g.up && g.submission.Creating? && g.submission.inserted
    ensures Keeps(s, g, Resumed(g))
  {
    hide Accepts, RecordsFit, LateFits, Correlated, HistoryFits;
  }

  lemma FirstCancelKeeps(s: Settings, g: State)
    requires Inv(s, g) && g.up && g.submission.Creating? && !g.submission.cancelled
    ensures Keeps(s, g, CancelledSubmission(g))
  {
    hide Accepts, RecordsFit, Correlated, NoRepeats, Preserves;
  }

  lemma CancelAgainAbandons(s: Settings, g: State)
    requires Inv(s, g) && g.up && g.submission.Creating? && g.submission.cancelled
    ensures Abandons(s, g, CancelledSubmission(g))
  {
    hide Accepts, RecordsFit, Correlated, NoRepeats, Preserves;
  }

  lemma CancelWithdrawalAbandons(s: Settings, g: State)
    requires Inv(s, g) && g.up && g.submission.Withdrawing? && !g.submission.written
    ensures Abandons(s, g, CancelledSubmission(g))
  {
    hide Accepts, RecordsFit, Correlated, NoRepeats, Preserves;
  }

  lemma CancelWithdrawalKeeps(s: Settings, g: State)
    requires Inv(s, g) && g.up && g.submission.Withdrawing? && g.submission.written
    ensures Keeps(s, g, CancelledSubmission(g))
  {
    hide Accepts, RecordsFit, Correlated, NoRepeats, LateFits, HistoryFits, Preserves;
  }

  lemma WithdrawKeeps(s: Settings, g: State)
    requires Inv(s, g) && g.up && g.submission.Withdrawing? && !g.submission.written
    ensures Keeps(s, g, Withdrawn(g))
  {
    hide Accepts, Correlated, NoRepeats;
    FinishPreserves(g.table, g.submission.id, Interrupted, None, Some(WITHDRAWN));
  }

  lemma SubmitEndsKeeps(s: Settings, g: State)
    requires Inv(s, g) && g.up && g.submission.Withdrawing? && g.submission.written
    ensures Keeps(s, g, SubmitEnds(g))
  {
    hide Accepts, RecordsFit, LateFits, Correlated, HistoryFits;
  }

  // ----- The worker keeps it -----------------------------------------------

  lemma StartKeeps(s: Settings, g: State)
    requires Inv(s, g) && g.up && g.worker.Scheduled?
    ensures Keeps(s, g, Started(g))
  {
    hide Accepts, RecordsFit, LateFits, HistoryFits;
  }

  lemma NeverStartsKeeps(s: Settings, g: State)
    requires Inv(s, g) && g.up && g.worker.Scheduled? && g.stopWorker
    ensures Keeps(s, g, WorkerGone(g))
  {
    hide Accepts, RecordsFit, LateFits, HistoryFits, Correlated;
  }

  /** The command goes out once, after the record was written and never for a withdrawn task. */
  lemma WriteKeeps(s: Settings, g: State)
    requires Inv(s, g) && g.up && g.worker.Sending? && !g.worker.written
    ensures Keeps(s, g, Written(g))
  {
    hide Accepts, RecordsFit, LateFits, Correlated;
  }

  lemma SentKeeps(s: Settings, g: State)
    requires Inv(s, g) && g.up && g.worker.Sending? && g.worker.written
    ensures Keeps(s, g, Sent(g))
  {
    hide Accepts, RecordsFit, LateFits, HistoryFits, Correlated;
  }

  lemma SendFailsKeeps(s: Settings, g: State)
    requires Inv(s, g) && g.up && g.worker.Sending?
    ensures Keeps(s, g, SendFailed(g))
  {
    hide Accepts, RecordsFit, LateFits, HistoryFits;
  }

  lemma TimeoutKeeps(s: Settings, g: State)
    requires Inv(s, g) && g.up && InPlan(g)
    ensures Keeps(s, g, TimedOut(g))
  {
    hide Accepts, RecordsFit, LateFits, HistoryFits;
  }

  /** A reply is filed under its own task, so a result that validates names that task. */
  lemma ConclusionFits(s: Settings, table: Table, id: string, request: Payload, reply: Future)
    requires id in table && table[id].request == request
    requires reply.Resolved? ==> TaskIdOf(reply.data) == Some(id)
    ensures var w := Concluded(s, id, request, reply);
            && w.Finishing? && w.id == id && w.status != Planning && !w.written
            && ValidOutcome(s, table, id, w.status, w.result)
  {
    hide Accepts;
  }

  lemma ReplyKeeps(s: Settings, g: State)
    requires Inv(s, g) && g.up && g.worker.Awaiting? && g.worker.id in g.pending
    ensures Keeps(s, g, Replied(s, g))
  {
    hide Accepts, RecordsFit, LateFits, HistoryFits, Concluded, ValidOutcome, Preserves;
    ConclusionFits(s, g.table, g.worker.id, g.worker.request, g.pending[g.worker.id]);
  }

  lemma StopInPlanKeeps(s: Settings, g: State)
    requires Inv(s, g) && g.up && g.stopWorker && InPlan(g)
    ensures Keeps(s, g, Stopped(g))
  {
    hide Accepts, RecordsFit, LateFits, HistoryFits;
  }

  lemma StopFinishingAbandons(s: Settings, g: State)
    requires Inv(s, g) && g.up && g.stopWorker && g.worker.Finishing? && !g.worker.written
    ensures Abandons(s, g, Stopped(g))
  {
    hide Accepts, RecordsFit, NoRepeats, Correlated, Preserves;
  }

  lemma StopFinishedKeeps(s: Settings, g: State)
    requires Inv(s, g) && g.up && g.stopWorker && g.worker.Finishing? && g.worker.written
    ensures Keeps(s, g, Stopped(g))
  {
    hide Accepts, RecordsFit, NoRepeats, Correlated, LateFits, HistoryFits, Preserves;
  }

  lemma FinishKeeps(s: Settings, g: State)
    requires Inv(s, g) && g.up && g.worker.Finishing? && !g.worker.written
    ensures Keeps(s, g, FinishWritten(g))
  {
    hide Accepts, NoRepeats, Correlated;
    FinishPreserves(g.table, g.worker.id, g.worker.status, g.worker.result, g.worker.error);
  }

  lemma WorkerClearsKeeps(s: Settings, g: State)
    requires Inv(s, g) && g.up && g.worker.Finishing? && g.worker.written
    ensures Keeps(s, g, WorkerGone(g).(active := None))
  {
    hide Accepts, RecordsFit, LateFits, HistoryFits, Correlated;
  }

  // ----- The motion service keeps it ---------------------------------------

  lemma ReceiveKeeps(s: Settings, g: State, message: Message)
    requires Inv(s, g) && g.up
    ensures Keeps(s, g, g.(pending := Delivered(g.pending, message)))
  {
    hide Accepts, RecordsFit, LateFits, HistoryFits, Delivered;
    DeliveryIsCorrelated(g.pending, message);
  }

  lemma DisconnectKeeps(s: Settings, g: State)
    requires Inv(s, g) && g.up
    ensures Keeps(s, g, Disconnected(g)) && Keeps(s, g, g.(online := true))
  {
    hide Accepts, RecordsFit, LateFits, HistoryFits;
  }

  // ----- Shutdown and late writes keep it ----------------------------------

  lemma LockKeeps(s: Settings, g: State)
    requires Inv(s, g) && g.up && g.shutdown == Requested && g.submission == Idle
    ensures Keeps(s, g, Locked(g))
  {
    hide Accepts, RecordsFit, LateFits, HistoryFits, Correlated;
  }

  lemma ContinueKeeps(s: Settings, g: State)
    requires Inv(s, g) && g.up && g.shutdown == Stopping && g.worker == NoWorker
    ensures Keeps(s, g, Cleared(g))
  {
    hide Accepts, RecordsFit, LateFits, HistoryFits, Correlated;
  }

  lemma RequestKeeps(s: Settings, g: State)
    requires Inv(s, g) && g.up && g.shutdown == Open
    ensures Keeps(s, g, g.(shutdown := Requested))
  {
    hide Accepts, RecordsFit, LateFits, HistoryFits, Correlated;
  }

  lemma ClearKeeps(s: Settings, g: State)
    requires Inv(s, g) && g.up && g.shutdown.Clearing? && !g.shutdown.written
    ensures Keeps(s, g, ClearWritten(g))
  {
    hide Accepts, NoRepeats, Correlated;
    FinishPreserves(g.table, g.shutdown.id, Interrupted, None, Some(STOPPED));
  }

  lemma CloseEndsKeeps(s: Settings, g: State)
    requires Inv(s, g) && g.up && g.shutdown.Clearing? && g.shutdown.written
    ensures Keeps(s, g, CloseEnds(g))
  {
    hide Accepts, RecordsFit, LateFits, HistoryFits, Correlated;
  }

  /** A late write touches an abandoned task only: it never revives a finished record. */
  lemma LateWriteKeeps(s: Settings, g: State, id: string)
    requires Inv(s, g) && g.up && id in g.late
    ensures Keeps(s, g, LateWritten(g, id))
  {
    hide Accepts, NoRepeats, Correlated, Created, Finished;
    assert LateWriteFits(s, g.table, g.withdrawn, id, g.late[id]);
    match g.late[id]
    case LateCreate(request) => LateCreateKeeps(s, g, id, request);
    case LateFinish(status, result, error) => LateFinishKeeps(s, g, id, status, result, error);
  }

  lemma LateCreateKeeps(s: Settings, g: State, id: string, request: Payload)
    requires Inv(s, g) && g.up && id in g.late && g.late[id] == LateCreate(request) && id !in g.table
    ensures Keeps(s, g, LateWritten(g, id))
  {
    hide Accepts, NoRepeats, Correlated;
    CreationPreserves(g.table, id, request);
  }

  lemma LateFinishKeeps(s: Settings, g: State, id: string, status: Status, result: Option<PlanData>,
                        error: Option<TaskError>)
    requires Inv(s, g) && g.up && id in g.late && g.late[id] == LateFinish(status, result, error)
    ensures Keeps(s, g, LateWritten(g, id))
  {
    hide Accepts, NoRepeats, Correlated;
    assert LateWriteFits(s, g.table, g.withdrawn, id, g.late[id]);
    FinishPreserves(g.table, id, status, result, error);
  }

  lemma LateDropKeeps(s: Settings, g: State, id: string)
    requires Inv(s, g) && g.up && id in g.late
    ensures Keeps(s, g, g.(late := g.late - {id}))
  {
    hide Accepts, RecordsFit, HistoryFits, Correlated;
  }

  // ----- Crashes and restarts keep it --------------------------------------

  lemma CrashKeeps(s: Settings, g: State)
    requires Inv(s, g) && g.up
    ensures Inv(s, Crashed(g)) && Evolves(g, Crashed(g))
  {
    hide Accepts, RecordsFit, HistoryFits, Preserves;
  }

  /** After a restart no record is planning, no task is abandoned, and the gateway is free. */
  lemma RestartKeeps(s: Settings, g: State)
    requires Inv(s, g) && !g.up
    ensures Inv(s, Restarted(g)) && Evolves(g, Restarted(g))
    ensures PlanningIds(Restarted(g).table) == {} && Restarted(g).orphans == {} && Restarted(g).active == None
  {
    hide Accepts, NoRepeats, Correlated;
    RecoveryPreserves(g.table);
  }

  lemma InitialFits(s: Settings)
    ensures Inv(s, INITIAL)
  {
  }

  // ----- Every step, every run ---------------------------------------------

  /** A second cancellation of a submission, or a shutdown that overtakes the worker's own final write. */
  predicate MakesOrphan(g: State, step: Step) {
    || (step.CancelSubmit? && g.submission.Creating? && g.submission.cancelled)
    || (step.CancelSubmit? && g.submission.Withdrawing? && !g.submission.written)
    || (step.WorkerStops? && g.worker.Finishing? && !g.worker.written)
  }

  /** What one step of any kind keeps; nothing but the two races abandons a task. */
  ghost predicate Effect(s: Settings, g: State, step: Step, h: State) {
    if step.Crash? then Inv(s, h) && Evolves(g, h) && h == Crashed(g)
    else if step.Restart? then Inv(s, h) && Evolves(g, h) && h == Restarted(g)
    else if MakesOrphan(g, step) then Abandons(s, g, h)
    else Keeps(s, g, h)
  }

  lemma StepKeeps(s: Settings, g: State, step: Step)
    requires Inv(s, g) && Enabled(g, step)
    ensures Effect(s, g, step, After(s, g, step))
  {
    hide Inv, Keeps, Abandons, Evolves, Submitted, Inserted, Resumed, CancelledSubmission, Withdrawn, Started,
         Written, Sent, SendFailed, Replied, TimedOut, Stopped, FinishWritten, WorkerGone, Delivered, Disconnected,
         Locked, Cleared, ClearWritten, CloseEnds, SubmitEnds, LateWritten, Crashed, Restarted;
    match step
    case Submit(id, request) => SubmitKeeps(s, g, id, request);
    case CancelSubmit => CancelTakesEffect(s, g);
    case InsertCommitted => InsertKeeps(s, g);
    case SubmitResumes => SubmitResumesKeeps(s, g);
    case WithdrawCommitted => WithdrawKeeps(s, g);
    case WithdrawResumes => SubmitEndsKeeps(s, g);
    case WorkerStarts => StartKeeps(s, g);
    case WorkerNeverStarts => NeverStartsKeeps(s, g);
    case CommandWritten => WriteKeeps(s, g);
    case SendSucceeds => SentKeeps(s, g);
    case SendFails => SendFailsKeeps(s, g);
    case WorkerResumes => ReplyKeeps(s, g);
    case TimesOut => TimeoutKeeps(s, g);
    case WorkerStops => StopTakesEffect(s, g);
    case FinishCommitted => FinishKeeps(s, g);
    case WorkerClears => WorkerClearsKeeps(s, g);
    case Receive(message) => ReceiveKeeps(s, g, message);
    case Connect => DisconnectKeeps(s, g);
    case Disconnect => DisconnectKeeps(s, g);
    case CloseRequested => RequestKeeps(s, g);
    case CloseLocks => LockKeeps(s, g);
    case CloseContinues => ContinueKeeps(s, g);
    case ClearCommitted => ClearKeeps(s, g);
    case ClearResumes => CloseEndsKeeps(s, g);
    case LateCommit(id) => LateWriteKeeps(s, g, id);
    case LateDropped(id) => LateDropKeeps(s, g, id);
    case Crash => CrashKeeps(s, g);
    case Restart => RestartKeeps(s, g);
  }

  lemma CancelTakesEffect(s: Settings, g: State)
    requires Inv(s, g) && g.up && !g.submission.Idle?
    ensures Effect(s, g, CancelSubmit, CancelledSubmission(g))
  {
    hide Inv, CancelledSubmission, Keeps, Abandons, Evolves, Crashed, Restarted;
    match g.submission
    case Creating(_, _, _, cancelled) =>
      if cancelled {
        CancelAgainAbandons(s, g);
      } else {
        FirstCancelKeeps(s, g);
      }
    case Withdrawing(_, written) =>
      if written {
        CancelWithdrawalKeeps(s, g);
      } else {
        CancelWithdrawalAbandons(s, g);
      }
  }

  lemma StopTakesEffect(s: Settings, g: State)
    requires Inv(s, g) && g.up && g.stopWorker && (InPlan(g) || g.worker.Finishing?)
    ensures Effect(s, g, WorkerStops, Stopped(g))
  {
    hide Inv, Stopped, Keeps, Abandons, Evolves, Crashed, Restarted;
    if InPlan(g) {
      StopInPlanKeeps(s, g);
    } else if g.worker.written {
      StopFinishedKeeps(s, g);
    } else {
      StopFinishingAbandons(s, g);
    }
  }

  lemma {:induction false} RunKeeps(s: Settings, states: seq<State>, steps: seq<Step>, i: nat)
    requires IsRun(s, states, steps) && i < |states|
    ensures Inv(s, states[i])
  {
    hide Inv, After, Enabled, Evolves, Crashed, Restarted;
    if i == 0 {
      InitialFits(s);
    } else {
      RunKeeps(s, states, steps, i - 1);
      RunStep(s, states, steps, i - 1);
    }
  }

  /** Each step of a run takes effect on a state that satisfies the invariant. */
  lemma RunStep(s: Settings, states: seq<State>, steps: seq<Step>, i: nat)
    requires IsRun(s, states, steps) && i < |steps| && Inv(s, states[i])
    ensures Effect(s, states[i], steps[i], states[i + 1])
  {
    hide Inv, After, Enabled, Effect;
    assert Follows(s, states[i], steps[i], states[i + 1]);
    StepKeeps(s, states[i], steps[i]);
  }

  // ----- Single flight -----------------------------------------------------

  /**
    At most one task is in flight: every pending reply, every worker and every unabandoned record is the active one.
    */
  lemma SingleFlight(s: Settings, states: seq<State>, steps: seq<Step>, i: nat)
    requires IsRun(s, states, steps) && i < |states|
    ensures var g := states[i];
            && g.pending.Keys <= ActiveSet(g)
            && (g.worker != NoWorker ==> g.active == Some(g.worker.id))
            && (g.submission != Idle ==> g.active == Some(g.submission.id) && g.worker == NoWorker)
            && (g.up ==> PlanningIds(g.table) <= ActiveSet(g) + g.orphans)
  {
    hide IsRun, RecordsFit, LateFits, HistoryFits, Correlated;
    RunKeeps(s, states, steps, i);
  }

  // ----- Write-ahead, at most once, final ----------------------------------

  lemma EffectEvolves(s: Settings, g: State, step: Step, h: State)
    requires Effect(s, g, step, h)
    ensures Evolves(g, h)
  {
    hide Inv, Evolves, Crashed, Restarted;
  }

  /** The history of g is a prefix of the history of h. */
  ghost predicate Extends(g: State, h: State) {
    Preserves(g.table, h.table) && g.sent <= h.sent && g.used <= h.used && g.withdrawn <= h.withdrawn
  }

  lemma EvolvesExtends(f: State, g: State, h: State)
    requires Extends(f, g) && Evolves(g, h)
    ensures Extends(f, h)
  {
  }

  lemma ExtendsItself(g: State)
    ensures Extends(g, g)
  {
  }

  /** Over a whole run, crashes and restarts included, a final record never changes and no command is forgotten. */
  lemma {:induction false} HistoryIsFinal(s: Settings, states: seq<State>, steps: seq<Step>, i: nat, j: nat)
    requires IsRun(s, states, steps) && i <= j < |states|
    ensures Extends(states[i], states[j])
  {
    hide Inv, After, Enabled, Extends, Evolves, Effect;
    if i < j {
      HistoryIsFinal(s, states, steps, i, j - 1);
      RunKeeps(s, states, steps, j - 1);
      RunStep(s, states, steps, j - 1);
      EffectEvolves(s, states[j - 1], steps[j - 1], states[j]);
      EvolvesExtends(states[i], states[j - 1], states[j]);
    } else {
      ExtendsItself(states[i]);
    }
  }

  /** A command is written only by the worker of a recorded, unfinished task, with that task's request. */
  lemma WriteAhead(s: Settings, states: seq<State>, steps: seq<Step>, i: nat)
    requires IsRun(s, states, steps) && i < |steps|
    ensures SentAhead(states[i], states[i + 1])
  {
    hide After, Enabled, Inv, Effect, SentAhead, Preserves;
    RunKeeps(s, states, steps, i);
    RunStep(s, states, steps, i);
    EffectEvolves(s, states[i], steps[i], states[i + 1]);
  }

  /** A grasp command goes out at most once per task, never without a record, never for a withdrawn submission. */
  lemma AtMostOnce(s: Settings, states: seq<State>, steps: seq<Step>, i: nat, j: nat)
    requires IsRun(s, states, steps) && i <= j < |states|
    ensures NoRepeats(states[j].sent)
    ensures forall id :: id in states[j].sent ==> id in states[j].table && id !in states[i].withdrawn
  {
    hide IsRun, RecordsFit, LateFits, Correlated, SubmissionFits, ShutdownFits, ActiveFits, Agreement, Preserves;
    RunKeeps(s, states, steps, j);
    HistoryIsFinal(s, states, steps, i, j);
  }

  /** Every plan ever stored names its own task and passed validation against the request recorded for it. */
  lemma StoredPlansAreCorrelated(s: Settings, states: seq<State>, steps: seq<Step>, i: nat, id: string)
    requires IsRun(s, states, steps) && i < |states| && id in states[i].table && states[i].table[id].status == Completed
    ensures var r := states[i].table[id];
            r.result.Some? && r.result.value.taskId == id && Accepts(s, r.request, r.result.value)
  {
    hide IsRun, Accepts;
    RunKeeps(s, states, steps, i);
    assert ValidOutcome(s, states[i].table, id, states[i].table[id].status, states[i].table[id].result);
  }

  /** Whenever the gateway comes up, no record is planning. */
  lemma RecoveryIsComplete(s: Settings, states: seq<State>, steps: seq<Step>, i: nat)
    requires IsRun(s, states, steps) && i < |steps| && steps[i].Restart?
    ensures states[i + 1].up && PlanningIds(states[i + 1].table) == {} && states[i + 1].active == None
  {
    hide After, Inv, Evolves, Preserves;
    RunKeeps(s, states, steps, i);
    assert Follows(s, states[i], steps[i], states[i + 1]);
    StepKeeps(s, states[i], steps[i]);
    RestartKeeps(s, states[i]);
  }

  /** The data carries the task's id, in a plan or by itself. */
  predicate Names(data: Data, id: string) {
    match data
    case Shaped(plan) => plan.taskId == id
    case Unshaped(taskId) => taskId == Some(id)
  }

  /** The one waiting reply, if any, is that of the worker inside the adapter's plan. */
  predicate Awaits(g: State) {
    InPlan(g) && g.worker.id in g.pending && g.pending[g.worker.id] == Waiting
  }

  /** In every reachable state, a message has an effect exactly when it settles the waiting reply of the active task. */
  lemma ReplyTakesEffectIff(s: Settings, states: seq<State>, steps: seq<Step>, i: nat, m: Message)
    requires IsRun(s, states, steps) && i < |states| && Enabled(states[i], Receive(m))
    ensures var g := states[i];
            After(s, g, Receive(m)) != g
            <==> && Awaits(g) && m.source == Motion && (m.kind == MotionStatus || m.kind == FaultReport)
                 && (m.code == EMERGENCY_STOP || Names(m.data, g.worker.id))
  {
    hide IsRun, RecordsFit, LateFits, HistoryFits, SubmissionFits, ShutdownFits, ActiveFits, Agreement, Delivered;
    RunKeeps(s, states, steps, i);
    var g := states[i];
    assert g.pending.Keys <= if InPlan(g) then {g.worker.id} else {};
    DeliveredIff(g.pending, m);
    if Awaits(g) {
      assert Settles(g.pending, g.worker.id, m)
        <==> IsFeedback(m) && (IsEmergencyStop(m) || TaskIdOf(m.data) == Some(g.worker.id));
    }
  }

  /** A message that settles the waiting reply filed under id. */
  predicate Settles(pending: Pending, id: string, m: Message) {
    && id in pending && pending[id] == Waiting && IsFeedback(m)
    && (IsEmergencyStop(m) || TaskIdOf(m.data) == Some(id))
  }

  lemma DeliveredIff(pending: Pending, m: Message)
    ensures Delivered(pending, m) != pending <==> exists id :: Settles(pending, id, m)
  {
    if id :| Settles(pending, id, m) {
      assert Delivered(pending, m)[id] != Waiting;
    } else {
      forall id | id in pending
        ensures id in Delivered(pending, m) && Delivered(pending, m)[id] == pending[id]
      {
        assert !Settles(pending, id, m);
      }
      assert Delivered(pending, m).Keys == pending.Keys;
    }
  }

  /** A reply that is no emergency stop, for a task that is unknown, finished or timed out, changes nothing. */
  lemma StrayReplyChangesNothing(s: Settings, states: seq<State>, steps: seq<Step>, i: nat, m: Message)
    requires IsRun(s, states, steps) && i < |states| && Enabled(states[i], Receive(m)) && m.code != EMERGENCY_STOP
    requires TaskIdOf(m.data).Some? ==>
               var id := TaskIdOf(m.data).value;
               !IsPlanning(states[i].table, id) || (states[i].worker.Finishing? && states[i].worker.id == id)
    ensures After(s, states[i], Receive(m)) == states[i]
  {
    hide IsRun, RecordsFit, LateFits, HistoryFits, SubmissionFits, ShutdownFits, ActiveFits, Agreement, After, Enabled;
    RunKeeps(s, states, steps, i);
    ReplyTakesEffectIff(s, states, steps, i, m);
  }

  // ----- Abandoned tasks ---------------------------------------------------

  /** Without the two races, a record is planning only while its task is the active one. */
  lemma {:induction false} PlainAgreement(s: Settings, states: seq<State>, steps: seq<Step>, i: nat)
    requires IsRun(s, states, steps) && i < |states|
    requires forall k :: 0 <= k < i ==> !MakesOrphan(states[k], steps[k])
    ensures states[i].orphans == {}
    ensures states[i].up ==> PlanningIds(states[i].table) <= ActiveSet(states[i])
  {
    hide Inv, After, Enabled, MakesOrphan, Evolves;
    if i > 0 {
      PlainAgreement(s, states, steps, i - 1);
      RunKeeps(s, states, steps, i - 1);
      RunStep(s, states, steps, i - 1);
      assert !MakesOrphan(states[i - 1], steps[i - 1]);
    }
    SingleFlight(s, states, steps, i);
  }

  /** An INSERT whose submission was cancelled twice before it committed, carried out after all. */
  predicate WritesLateRecord(g: State, step: Step)
    requires Enabled(g, step)
  {
    step.LateCommit? && g.late[step.id].LateCreate?
  }

  /** Only a late INSERT makes a planning record of an abandoned task that has none. */
  lemma NoAbandonedRevives(s: Settings, g: State, step: Step, id: string)
    requires Inv(s, g) && Enabled(g, step) && g.up && !WritesLateRecord(g, step)
    requires id in g.orphans && !IsPlanning(g.table, id)
    ensures !IsPlanning(After(s, g, step).table, id)
  {
    hide Accepts, RecordsFit, LateFits, HistoryFits, Correlated, WorkerFits, ShutdownFits, Agreement, Stopped, Replied,
         Delivered, Crashed, Started, Written, Sent, SendFailed, TimedOut, Locked, Cleared, Evolves, Preserves;
    OtherStepsKeepTable(s, g, step);
  }

  predicate TouchesTable(step: Step) {
    || step.InsertCommitted? || step.WithdrawCommitted? || step.FinishCommitted? || step.ClearCommitted?
    || step.LateCommit? || step.Restart?
  }

  lemma SubmitKeepsTable(s: Settings, g: State, id: string, request: Payload)
    ensures Submitted(s, g, id, request).table == g.table
  {
    hide Admit;
  }

  lemma SubmissionKeepsTable(g: State)
    ensures g.submission.Creating? ==> Resumed(g).table == g.table
    ensures !g.submission.Idle? ==> CancelledSubmission(g).table == g.table
  {
  }

  lemma SendingKeepsTable(g: State)
    ensures g.worker.Scheduled? ==> Started(g).table == g.table
    ensures g.worker.Sending? ==>
              Written(g).table == g.table && Sent(g).table == g.table && SendFailed(g).table == g.table
  {
    hide AllBroken;
  }

  lemma PlanKeepsTable(s: Settings, g: State)
    ensures g.worker.Awaiting? && g.worker.id in g.pending ==> Replied(s, g).table == g.table
    ensures InPlan(g) ==> TimedOut(g).table == g.table
    ensures InPlan(g) || g.worker.Finishing? ==> Stopped(g).table == g.table
  {
    hide Concluded;
  }

  lemma OtherStepsKeepTable(s: Settings, g: State, step: Step)
    requires Enabled(g, step)
    ensures !TouchesTable(step) ==> After(s, g, step).table == g.table
  {
    hide Submitted, Resumed, CancelledSubmission, Started, Written, Sent, SendFailed, Replied, TimedOut, Stopped,
         AllBroken, Delivered, Inserted, Withdrawn, FinishWritten, ClearWritten, LateWritten, Restarted;
    SendingKeepsTable(g);
    PlanKeepsTable(s, g);
    SubmissionKeepsTable(g);
    if step.Submit? {
      SubmitKeepsTable(s, g, step.id, step.request);
    }
  }

  /**
    While every planning record belongs to the active task, a step ends that exactly when it is one of the two races
    and the active task is recorded as planning, or when it is a late INSERT.
    */
  lemma AgreementBreaksIff(s: Settings, g: State, step: Step)
    requires Inv(s, g) && Enabled(g, step) && g.up && PlanningIds(g.table) <= ActiveSet(g) && !step.Crash?
    ensures var h := After(s, g, step);
            !(PlanningIds(h.table) <= ActiveSet(h))
            <==> (MakesOrphan(g, step) && g.active.Some? && IsPlanning(g.table, g.active.value))
                 || WritesLateRecord(g, step)
  {
    hide Accepts, RecordsFit, LateFits, HistoryFits, Correlated, SubmissionFits, WorkerFits, ShutdownFits, ActiveFits,
         After, Enabled, MakesOrphan, WritesLateRecord, Evolves;
    NeverRestartsUp(g, step);
    StepKeeps(s, g, step);
    var h := After(s, g, step);
    if WritesLateRecord(g, step) {
      LateInsertBreaks(s, g, step);
    } else if MakesOrphan(g, step) {
      if g.active.Some? && IsPlanning(g.table, g.active.value) {
        assert g.active.value in PlanningIds(h.table);
      }
    } else {
      forall id | id in PlanningIds(h.table)
        ensures id in ActiveSet(h)
      {
        if id !in ActiveSet(h) {
          AbandonedIsInactive(s, g, id);
          NoAbandonedRevives(s, g, step, id);
        }
      }
    }
  }

  lemma AbandonedIsInactive(s: Settings, g: State, id: string)
    requires Inv(s, g) && id in g.orphans
    ensures id !in ActiveSet(g)
  {
  }

  lemma LateInsertBreaks(s: Settings, g: State, step: Step)
    requires Inv(s, g) && Enabled(g, step) && g.up && WritesLateRecord(g, step)
    ensures !MakesOrphan(g, step)
    ensures var h := After(s, g, step); step.id in PlanningIds(h.table) && step.id !in ActiveSet(h)
  {
    hide Accepts, RecordsFit, HistoryFits, Correlated, SubmissionFits, WorkerFits, ShutdownFits;
    assert LateWriteFits(s, g.table, g.withdrawn, step.id, g.late[step.id]);
    AbandonedIsInactive(s, g, step.id);
  }

  lemma NeverRestartsUp(g: State, step: Step)
    requires Enabled(g, step) && g.up
    ensures !step.Restart?
  {
  }
}
