/**
  The planning gateway as a machine whose steps are the stretches of code between two awaits: submission, worker,
  shutdown, the replies of the motion service, the database writes that run in threads, crashes and restarts.
  */
module Gateway {
  import opened ErrorCodes
  import opened Options
  import opened MotionProcessor
  import opened PlanValidation
  import opened TaskRepository
  import opened KinematicsAdapter

  const WITHDRAWN := TaskError(MOTION_EXEC_FAILED, "submission cancelled, nothing sent")
  const STOPPED := TaskError(MOTION_EXEC_FAILED, "gateway closing, planning interrupted; not sent again")
  const TIMED_OUT := TaskError(REQUEST_TIMEOUT, "no planning result in time")
  const NOT_SENT := TaskError(TARGET_OFFLINE, "motion service offline or send failed")
  const INVALID_RESULT := TaskError(MOTION_EXEC_FAILED, "planning result invalid or internal error")

  // ----- State -------------------------------------------------------------

  /** The holder of the submission lock inside submit. */
  datatype Submission =
    | Idle
    | Creating(id: string, request: Payload, inserted: bool, cancelled: bool)
    | Withdrawing(id: string, written: bool)

  /** The background task of the one active plan. */
  datatype Worker =
    | NoWorker
    | Scheduled(id: string, request: Payload)
    | Sending(id: string, request: Payload, written: bool)
    | Awaiting(id: string, request: Payload)
    | Finishing(id: string, status: Status, result: Option<PlanData>, error: Option<TaskError>, written: bool)

  /** How far close has come; from Stopping on it holds the submission lock. */
  datatype Shutdown =
    | Open
    | Requested
    | Stopping
    | Clearing(id: string, written: bool)
    | Closed

  /** A database write whose waiting coroutine is gone: its thread may still carry it out, or never start. */
  datatype LateWrite =
    | LateCreate(request: Payload)
    | LateFinish(status: Status, result: Option<PlanData>, error: Option<TaskError>)

  /**
    The last five fields are history: ids ever drawn, commands written to the motion service, submissions cancelled
    before their worker existed, and tasks whose bookkeeping was abandoned together with their late writes.
    */
  datatype State = State(up: bool, table: Table, active: Option<string>, pending: Pending, online: bool,
                         submission: Submission, worker: Worker, stopWorker: bool, shutdown: Shutdown,
                         used: set<string>, sent: seq<string>, withdrawn: set<string>, orphans: set<string>,
                         late: map<string, LateWrite>)

  const INITIAL := State(false, map[], None, map[], false, Idle, NoWorker, false, Open, {}, [], {}, {}, map[])

  function ActiveSet(g: State): set<string> {
    if g.active.Some? then {g.active.value} else {}
  }

  // ----- Admission ---------------------------------------------------------

  datatype Admission = Admitted | Refused(status: int, code: int)

  predicate ValidRequest(s: Settings, request: Payload) {
    && request.forceLimit <= s.maximumForce
    && (request.currentJointAngles.Some? ==> Inside(s, request.currentJointAngles.value))
  }

  /** The answer submit gives once it holds the lock. */
  function Admit(s: Settings, g: State, request: Payload): Admission {
    if !ValidRequest(s, request) then Refused(422, INVALID_PARAM)
    else if g.shutdown != Open then Refused(503, TARGET_OFFLINE)
    else if g.active != None then Refused(409, ROBOT_BUSY)
    else if !g.online then Refused(503, TARGET_OFFLINE)
    else Admitted
  }

  predicate LockFree(g: State) {
    g.submission == Idle && !g.shutdown.Stopping? && !g.shutdown.Clearing?
  }

  // ----- Steps -------------------------------------------------------------

  datatype Step =
    | Submit(id: string, request: Payload)
    | CancelSubmit
    | InsertCommitted
    | SubmitResumes
    | WithdrawCommitted
    | WithdrawResumes
    | WorkerStarts
    | WorkerNeverStarts
    | CommandWritten
    | SendSucceeds
    | SendFails
    | WorkerResumes
    | TimesOut
    | WorkerStops
    | FinishCommitted
    | WorkerClears
    | Receive(message: Message)
    | Connect
    | Disconnect
    | CloseRequested
    | CloseLocks
    | CloseContinues
    | ClearCommitted
    | ClearResumes
    | LateCommit(id: string)
    | LateDropped(id: string)
    | Crash
    | Restart

  /** The worker is inside the adapter's plan. */
  predicate InPlan(g: State) {
    g.worker.Sending? || g.worker.Awaiting?
  }

  predicate Enabled(g: State, step: Step) {
    if step.Restart? then !g.up else
    && g.up
    && match step
       case Submit(id, _) => LockFree(g) && id !in g.used
       case CancelSubmit => !g.submission.Idle?
       case InsertCommitted => g.submission.Creating? && !g.submission.inserted
       case SubmitResumes => g.submission.Creating? && g.submission.inserted
       case WithdrawCommitted => g.submission.Withdrawing? && !g.submission.written
       case WithdrawResumes => g.submission.Withdrawing? && g.submission.written
       case WorkerStarts => g.worker.Scheduled? && !g.stopWorker
       case WorkerNeverStarts => g.worker.Scheduled? && g.stopWorker
       case CommandWritten => g.worker.Sending? && !g.worker.written
       case SendSucceeds => g.worker.Sending? && g.worker.written
       case SendFails => g.worker.Sending?
       case WorkerResumes => g.worker.Awaiting? && g.worker.id in g.pending && g.pending[g.worker.id] != Waiting
       case TimesOut => InPlan(g)
       case WorkerStops => g.stopWorker && (InPlan(g) || g.worker.Finishing?)
       case FinishCommitted => g.worker.Finishing? && !g.worker.written
       case WorkerClears => g.worker.Finishing? && g.worker.written
       case Receive(_) => g.online
       case Connect => !g.online
       case Disconnect => g.online
       case CloseRequested => g.shutdown == Open
       case CloseLocks => g.shutdown == Requested && g.submission == Idle
       case CloseContinues => g.shutdown == Stopping && g.worker == NoWorker
       case ClearCommitted => g.shutdown.Clearing? && !g.shutdown.written
       case ClearResumes => g.shutdown.Clearing? && g.shutdown.written
       case LateCommit(id) => id in g.late
       case LateDropped(id) => id in g.late
       case Crash => true
       case Restart => false
  }

  /** The outcome the worker takes from its settled reply. */
  function Concluded(s: Settings, id: string, request: Payload, reply: Future): Worker {
    match reply
    case Resolved(data) =>
      if data.Shaped? && Accepts(s, request, data.plan) then Finishing(id, Completed, Some(data.plan), None, false)
      else Finishing(id, Failed, None, Some(INVALID_RESULT), false)
    case Broken(code) => Finishing(id, Failed, None, Some(TaskError(code, "motion service")), false)
    case Waiting => Finishing(id, Failed, None, Some(TIMED_OUT), false)
  }

  /** The coroutine waiting for a database write is cancelled a second time and forgets the task. */
  function Abandoned(g: State, id: string, late: map<string, LateWrite>): State {
    g.(active := None, orphans := g.orphans + {id}, late := late)
  }

  function CancelledSubmission(g: State): State
    requires !g.submission.Idle?
  {
    var id := g.submission.id;
    match g.submission
    case Creating(_, request, inserted, cancelled) =>
      if !cancelled then g.(submission := Creating(id, request, inserted, true), withdrawn := g.withdrawn + {id})
      else Abandoned(g, id, if inserted then g.late else g.late[id := LateCreate(request)]).(submission := Idle)
    case Withdrawing(_, written) =>
      if written then g.(submission := Idle, active := None)
      else Abandoned(g, id, g.late[id := LateFinish(Interrupted, None, Some(WITHDRAWN))]).(submission := Idle)
  }

  function Stopped(g: State): State
    requires InPlan(g) || g.worker.Finishing?
  {
    match g.worker
    case Finishing(id, status, result, error, written) =>
      var h := if written then g.(active := None)
               else Abandoned(g, id, g.late[id := LateFinish(status, result, error)]);
      h.(worker := NoWorker, stopWorker := false)
    case _ =>
      g.(pending := g.pending - {g.worker.id}, stopWorker := false,
         worker := Finishing(g.worker.id, Interrupted, None, Some(STOPPED), false))
  }

  /** What close does once the worker is gone: clear a task the worker never took up, or be done. */
  function Cleared(g: State): State {
    if g.active.Some? then g.(shutdown := Clearing(g.active.value, false)) else g.(shutdown := Closed)
  }

  function Late(g: State, id: string): Table
    requires id in g.late
  {
    match g.late[id]
    case LateCreate(request) => if id in g.table then g.table else Created(g.table, id, request)
    case LateFinish(status, result, error) => Finished(g.table, id, status, result, error)
  }

  /** The table, the ids drawn and the commands written survive a crash; everything else is in memory. */
  function Crashed(g: State): State {
    State(false, g.table, None, map[], false, Idle, NoWorker, false, Open,
          g.used, g.sent, g.withdrawn, g.orphans, map[])
  }

  // ----- Submission

  function Submitted(s: Settings, g: State, id: string, request: Payload): State {
    if Admit(s, g, request) != Admitted then g
    else g.(active := Some(id), used := g.used + {id}, submission := Creating(id, request, false, false))
  }

  function Inserted(g: State): State
    requires g.submission.Creating?
  {
    var c := g.submission;
    g.(table := Created(g.table, c.id, c.request), submission := Creating(c.id, c.request, true, c.cancelled))
  }

  function Resumed(g: State): State
    requires g.submission.Creating?
  {
    var c := g.submission;
    if c.cancelled then g.(submission := Withdrawing(c.id, false))
    else g.(submission := Idle, worker := Scheduled(c.id, c.request))
  }

  function Withdrawn(g: State): State
    requires g.submission.Withdrawing?
  {
    g.(table := Finished(g.table, g.submission.id, Interrupted, None, Some(WITHDRAWN)),
       submission := Withdrawing(g.submission.id, true))
  }

  // ----- Worker

  function Started(g: State): State
    requires g.worker.Scheduled?
  {
    g.(pending := g.pending[g.worker.id := Waiting], worker := Sending(g.worker.id, g.worker.request, false))
  }

  function Written(g: State): State
    requires g.worker.Sending?
  {
    g.(sent := g.sent + [g.worker.id], worker := Sending(g.worker.id, g.worker.request, true))
  }

  /** A failed send closes the connection, which breaks every waiting reply before this one is dropped. */
  function SendFailed(g: State): State
    requires g.worker.Sending?
  {
    g.(online := false, pending := AllBroken(g.pending) - {g.worker.id},
       worker := Finishing(g.worker.id, Failed, None, Some(NOT_SENT), false))
  }

  function Replied(s: Settings, g: State): State
    requires g.worker.Awaiting? && g.worker.id in g.pending
  {
    g.(pending := g.pending - {g.worker.id},
       worker := Concluded(s, g.worker.id, g.worker.request, g.pending[g.worker.id]))
  }

  function TimedOut(g: State): State
    requires InPlan(g)
  {
    g.(pending := g.pending - {g.worker.id},
       worker := Finishing(g.worker.id, Failed, None, Some(TIMED_OUT), false))
  }

  function FinishWritten(g: State): State
    requires g.worker.Finishing?
  {
    var w := g.worker;
    g.(table := Finished(g.table, w.id, w.status, w.result, w.error),
       worker := Finishing(w.id, w.status, w.result, w.error, true))
  }

  function ClearWritten(g: State): State
    requires g.shutdown.Clearing?
  {
    g.(table := Finished(g.table, g.shutdown.id, Interrupted, None, Some(STOPPED)),
       shutdown := Clearing(g.shutdown.id, true))
  }

  function SubmitEnds(g: State): State {
    g.(submission := Idle, active := None)
  }

  function CloseEnds(g: State): State {
    g.(active := None, shutdown := Closed)
  }

  function WorkerGone(g: State): State {
    g.(worker := NoWorker, stopWorker := false)
  }

  function Sent(g: State): State
    requires g.worker.Sending?
  {
    g.(worker := Awaiting(g.worker.id, g.worker.request))
  }

  function Locked(g: State): State {
    if g.worker == NoWorker then Cleared(g) else g.(shutdown := Stopping, stopWorker := true)
  }

  function Disconnected(g: State): State {
    g.(online := false, pending := AllBroken(g.pending))
  }

  function LateWritten(g: State, id: string): State
    requires id in g.late
  {
    g.(table := Late(g, id), late := g.late - {id})
  }

  /** Startup recovers the table before it opens the server. */
  function Restarted(g: State): State {
    g.(up := true, table := Recovered(g.table), orphans := {})
  }

  function After(s: Settings, g: State, step: Step): State
    requires Enabled(g, step)
  {
    match step
    case Submit(id, request) => Submitted(s, g, id, request)
    case CancelSubmit => CancelledSubmission(g)
    case InsertCommitted => Inserted(g)
    case SubmitResumes => Resumed(g)
    case WithdrawCommitted => Withdrawn(g)
    case WithdrawResumes => SubmitEnds(g)
    case WorkerStarts => Started(g)
    case WorkerNeverStarts => WorkerGone(g)
    case CommandWritten => Written(g)
    case SendSucceeds => Sent(g)
    case SendFails => SendFailed(g)
    case WorkerResumes => Replied(s, g)
    case TimesOut => TimedOut(g)
    case WorkerStops => Stopped(g)
    case FinishCommitted => FinishWritten(g)
    case WorkerClears => WorkerGone(g).(active := None)
    case Receive(message) => g.(pending := Delivered(g.pending, message))
    case Connect => g.(online := true)
    case Disconnect => Disconnected(g)
    case CloseRequested => g.(shutdown := Requested)
    case CloseLocks => Locked(g)
    case CloseContinues => Cleared(g)
    case ClearCommitted => ClearWritten(g)
    case ClearResumes => CloseEnds(g)
    case LateCommit(id) => LateWritten(g, id)
    case LateDropped(id) => g.(late := g.late - {id})
    case Crash => Crashed(g)
    case Restart => Restarted(g)
  }

  // ----- Runs --------------------------------------------------------------

  /** A run: the states from the first start on, one step at a time. */
  ghost predicate IsRun(s: Settings, states: seq<State>, steps: seq<Step>) {
    && |states| == |steps| + 1 && states[0] == INITIAL
    && forall i :: 0 <= i < |steps| ==> Follows(s, states[i], steps[i], states[i + 1])
  }

  predicate Follows(s: Settings, g: State, step: Step, h: State) {
    Enabled(g, step) && h == After(s, g, step)
  }
}
