/** Every way in which a task can end without a plan, followed to the record it leaves. */
module Outcomes {
  import opened ErrorCodes
  import opened Options
  import opened MotionProcessor
  import opened PlanValidation
  import opened TaskRepository
  import opened KinematicsAdapter
  import opened Gateway
  import opened GatewayProof

  /** Between the two tables one task ended, with no result and the given code; no other record changed. */
  predicate EndedWith(before: Table, after: Table, id: string, request: Payload, status: Status, code: int) {
    && after.Keys == before.Keys && id in after
    && after[id].status == status && after[id].request == request && after[id].result == None
    && after[id].error.Some? && after[id].error.value.code == code
    && forall k :: k in before && k != id ==> after[k] == before[k]
  }

  /** The worker of this task waits for its reply, with the task's own request. */
  predicate AwaitsReply(g: State, id: string, request: Payload) {
    g.up && g.online && g.worker == Awaiting(id, request) && id in g.pending && g.pending[id] == Waiting
  }

  /** Feedback of the motion service that names the task. */
  predicate IsFeedbackFor(m: Message, id: string) {
    && m.source == Motion && (m.kind == MotionStatus || m.kind == FaultReport)
    && ((m.data.Shaped? && m.data.plan.taskId == id) || (m.data.Unshaped? && m.data.taskId == Some(id)))
  }

  /** The last step of each way: the worker saves a failure. */
  lemma SavedFailure(s: Settings, g: State, id: string, request: Payload, status: Status, error: TaskError)
    returns (stored: State)
    requires Inv(s, g) && g.up && g.worker == Finishing(id, status, None, Some(error), false)
    requires id in g.table && g.table[id].request == request
    ensures Follows(s, g, FinishCommitted, stored)
    ensures EndedWith(g.table, stored.table, id, request, status, error.code)
  {
    hide RecordsFit, LateFits, HistoryFits, Correlated, SubmissionFits, ShutdownFits, ActiveFits, Agreement, Accepts;
    stored := After(s, g, FinishCommitted);
  }

  lemma ActiveRecord(s: Settings, g: State, id: string, request: Payload)
    requires Inv(s, g) && (g.worker == Awaiting(id, request) || (g.worker.Sending? && g.worker.id == id
                                                                 && g.worker.request == request))
    ensures id in g.table && g.table[id].request == request && g.table[id].status == Planning
  {
    hide RecordsFit, LateFits, HistoryFits, Correlated, SubmissionFits, ShutdownFits, ActiveFits, Agreement;
  }

  // ----- Replies -----------------------------------------------------------

  /** The worker takes up a broken reply and saves its code. */
  lemma BrokenIsStored(s: Settings, g: State, id: string, request: Payload, code: int)
    returns (resumed: State, stored: State)
    requires Inv(s, g) && g.up && g.worker == Awaiting(id, request) && id in g.pending && g.pending[id] == Broken(code)
    ensures Follows(s, g, WorkerResumes, resumed) && Follows(s, resumed, FinishCommitted, stored)
    ensures EndedWith(g.table, stored.table, id, request, Failed, code)
  {
    hide Inv, EndedWith;
    ActiveRecord(s, g, id, request);
    resumed := After(s, g, WorkerResumes);
    ReplyKeeps(s, g);
    stored := SavedFailure(s, resumed, id, request, Failed, resumed.worker.error.value);
  }

  /**
    A failure the motion service reports for a waiting task ends as a failed record with exactly that code; a fault
    report without a code counts as a failed motion, and an emergency stop as an offline target.
    */
  lemma FailureIsStored(s: Settings, g: State, id: string, request: Payload, m: Message, code: int)
    returns (received: State, resumed: State, stored: State)
    requires Inv(s, g) && AwaitsReply(g, id, request) && IsFeedbackFor(m, id)
    requires code == if m.code == EMERGENCY_STOP then TARGET_OFFLINE
                     else if m.code != 0 then m.code else MOTION_EXEC_FAILED
    requires m.code == 0 ==> m.kind == FaultReport
    ensures Follows(s, g, Receive(m), received) && Follows(s, received, WorkerResumes, resumed)
    ensures Follows(s, resumed, FinishCommitted, stored)
    ensures EndedWith(g.table, stored.table, id, request, Failed, code)
  {
    hide Inv, EndedWith, Delivered, AllBroken;
    received := After(s, g, Receive(m));
    ReceiveKeeps(s, g, m);
    if m.code == EMERGENCY_STOP {
      StopIsFiled(g.pending, m, id);
    } else {
      ReplyIsFiled(g.pending, m, id);
    }
    resumed, stored := BrokenIsStored(s, received, id, request, code);
  }

  /** The loss of the motion service ends a waiting task as failed, its target offline. */
  lemma DisconnectIsStored(s: Settings, g: State, id: string, request: Payload)
    returns (received: State, resumed: State, stored: State)
    requires Inv(s, g) && AwaitsReply(g, id, request)
    ensures Follows(s, g, Disconnect, received) && Follows(s, received, WorkerResumes, resumed)
    ensures Follows(s, resumed, FinishCommitted, stored)
    ensures EndedWith(g.table, stored.table, id, request, Failed, TARGET_OFFLINE)
  {
    hide Inv, EndedWith;
    received := After(s, g, Disconnect);
    DisconnectKeeps(s, g);
    resumed, stored := BrokenIsStored(s, received, id, request, TARGET_OFFLINE);
  }

  /** A success whose result does not pass validation ends as a failed motion; the result is not stored. */
  lemma InvalidResultIsStored(s: Settings, g: State, id: string, request: Payload, data: Data)
    returns (resumed: State, stored: State)
    requires Inv(s, g) && g.up && g.worker == Awaiting(id, request)
    requires id in g.pending && g.pending[id] == Resolved(data)
    requires data.Unshaped? || !Accepts(s, request, data.plan)
    ensures Follows(s, g, WorkerResumes, resumed) && Follows(s, resumed, FinishCommitted, stored)
    ensures EndedWith(g.table, stored.table, id, request, Failed, MOTION_EXEC_FAILED)
  {
    hide Inv, EndedWith, Accepts;
    ActiveRecord(s, g, id, request);
    resumed := After(s, g, WorkerResumes);
    ReplyKeeps(s, g);
    stored := SavedFailure(s, resumed, id, request, Failed, resumed.worker.error.value);
  }

  // ----- No reply ----------------------------------------------------------

  /** A plan that takes too long, in sending or in waiting, ends as failed with the code of a timeout. */
  lemma TimeoutIsStored(s: Settings, g: State) returns (late: State, stored: State)
    requires Inv(s, g) && g.up && InPlan(g)
    ensures Follows(s, g, TimesOut, late) && Follows(s, late, FinishCommitted, stored)
    ensures EndedWith(g.table, stored.table, g.worker.id, g.worker.request, Failed, REQUEST_TIMEOUT)
  {
    hide Inv, EndedWith;
    ActiveRecord(s, g, g.worker.id, g.worker.request);
    late := After(s, g, TimesOut);
    TimeoutKeeps(s, g);
    stored := SavedFailure(s, late, g.worker.id, g.worker.request, Failed, late.worker.error.value);
  }

  /** A command that cannot be sent ends as failed, its target offline, and the connection is gone. */
  lemma SendFailureIsStored(s: Settings, g: State) returns (failed: State, stored: State)
    requires Inv(s, g) && g.up && g.worker.Sending?
    ensures Follows(s, g, SendFails, failed) && Follows(s, failed, FinishCommitted, stored) && !stored.online
    ensures EndedWith(g.table, stored.table, g.worker.id, g.worker.request, Failed, TARGET_OFFLINE)
  {
    hide Inv, EndedWith;
    ActiveRecord(s, g, g.worker.id, g.worker.request);
    failed := After(s, g, SendFails);
    SendFailsKeeps(s, g);
    stored := SavedFailure(s, failed, g.worker.id, g.worker.request, Failed, failed.worker.error.value);
  }

  // ----- Interruptions -----------------------------------------------------

  /** A plan that close interrupts ends as interrupted. */
  lemma StopIsStored(s: Settings, g: State) returns (stopped: State, stored: State)
    requires Inv(s, g) && g.up && InPlan(g) && g.stopWorker
    ensures Follows(s, g, WorkerStops, stopped) && Follows(s, stopped, FinishCommitted, stored)
    ensures EndedWith(g.table, stored.table, g.worker.id, g.worker.request, Interrupted, MOTION_EXEC_FAILED)
  {
    hide Inv, EndedWith;
    ActiveRecord(s, g, g.worker.id, g.worker.request);
    stopped := After(s, g, WorkerStops);
    StopInPlanKeeps(s, g);
    stored := SavedFailure(s, stopped, g.worker.id, g.worker.request, Interrupted, stopped.worker.error.value);
  }

  /** A task whose worker never ran is closed by close itself, as interrupted. */
  lemma ClearIsStored(s: Settings, g: State, id: string) returns (cleared: State, stored: State)
    requires Inv(s, g) && g.up && g.shutdown == Stopping && g.worker == NoWorker && g.active == Some(id)
    requires IsPlanning(g.table, id)
    ensures Follows(s, g, CloseContinues, cleared) && Follows(s, cleared, ClearCommitted, stored)
    ensures EndedWith(g.table, stored.table, id, g.table[id].request, Interrupted, MOTION_EXEC_FAILED)
  {
    hide Inv;
    cleared := After(s, g, CloseContinues);
    stored := After(s, cleared, ClearCommitted);
  }

  /** A submission cancelled once, whose record is there, is withdrawn as interrupted, still under the lock. */
  lemma WithdrawalIsStored(s: Settings, g: State) returns (cancelled: State, resumed: State, stored: State)
    requires Inv(s, g) && g.up && g.submission.Creating? && g.submission.inserted && !g.submission.cancelled
    ensures Follows(s, g, CancelSubmit, cancelled) && Follows(s, cancelled, SubmitResumes, resumed)
    ensures Follows(s, resumed, WithdrawCommitted, stored)
    ensures EndedWith(g.table, stored.table, g.submission.id, g.submission.request, Interrupted, MOTION_EXEC_FAILED)
    ensures stored.submission.Withdrawing? && stored.active == Some(g.submission.id)
  {
    hide RecordsFit, LateFits, HistoryFits, Correlated, WorkerFits, ShutdownFits, ActiveFits, Agreement;
    cancelled := After(s, g, CancelSubmit);
    resumed := After(s, cancelled, SubmitResumes);
    stored := After(s, resumed, WithdrawCommitted);
  }

  /** A restart ends every task a crash left unfinished as interrupted, and changes nothing else in the table. */
  lemma RestartIsStored(s: Settings, g: State, id: string) returns (restarted: State)
    requires !g.up && id in g.table
    ensures Follows(s, g, Restart, restarted) && restarted.table.Keys == g.table.Keys
    ensures var before, after := g.table[id], restarted.table[id];
            if before.status == Planning
            then && after.status == Interrupted && after.request == before.request && after.result == before.result
                 && after.error.Some? && after.error.value.code == MOTION_EXEC_FAILED
            else after == before
  {
    restarted := After(s, g, Restart);
  }

  // ----- Overtaken writes --------------------------------------------------

  /** A final write that close overtakes still stores the worker's own outcome, if its thread gets to it. */
  lemma OvertakenFinishIsStored(s: Settings, g: State) returns (stopped: State, stored: State)
    requires Inv(s, g) && g.up && g.stopWorker && g.worker.Finishing? && !g.worker.written
    ensures Follows(s, g, WorkerStops, stopped) && Follows(s, stopped, LateCommit(g.worker.id), stored)
    ensures g.worker.id in g.table
    ensures stored.table == g.table[g.worker.id := Record(g.worker.status, g.table[g.worker.id].request,
                                                          g.worker.result, g.worker.error)]
  {
    hide RecordsFit, LateFits, HistoryFits, Correlated, SubmissionFits, ShutdownFits, ActiveFits, Agreement, Accepts;
    stopped := After(s, g, WorkerStops);
    stored := After(s, stopped, LateCommit(g.worker.id));
  }

  /** A withdrawal that a second cancellation overtakes still interrupts the task. */
  lemma OvertakenWithdrawalIsStored(s: Settings, g: State) returns (cancelled: State, stored: State)
    requires Inv(s, g) && g.up && g.submission.Withdrawing? && !g.submission.written
    ensures Follows(s, g, CancelSubmit, cancelled) && Follows(s, cancelled, LateCommit(g.submission.id), stored)
    ensures g.submission.id in g.table
    ensures EndedWith(g.table, stored.table, g.submission.id, g.table[g.submission.id].request, Interrupted,
                      MOTION_EXEC_FAILED)
  {
    hide RecordsFit, LateFits, HistoryFits, Correlated, WorkerFits, ShutdownFits, ActiveFits, Agreement;
    cancelled := After(s, g, CancelSubmit);
    stored := After(s, cancelled, LateCommit(g.submission.id));
  }

  /** An INSERT that a second cancellation overtakes still writes its planning record, with the request. */
  lemma OvertakenInsertIsStored(s: Settings, g: State) returns (cancelled: State, stored: State)
    requires Inv(s, g) && g.up && g.submission.Creating? && !g.submission.inserted && g.submission.cancelled
    ensures Follows(s, g, CancelSubmit, cancelled) && Follows(s, cancelled, LateCommit(g.submission.id), stored)
    ensures stored.table == g.table[g.submission.id := Record(Planning, g.submission.request, None, None)]
    ensures stored.active == None
  {
    hide RecordsFit, LateFits, HistoryFits, Correlated, WorkerFits, ShutdownFits, ActiveFits, Agreement;
    cancelled := After(s, g, CancelSubmit);
    stored := After(s, cancelled, LateCommit(g.submission.id));
  }
}
