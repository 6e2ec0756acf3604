/** The client cycles as the methods that run them, with the answers of the outside world as
    parameters. Each call is proved to be a run of the transition system, so everything proved of
    those runs holds of the methods, wherever they end. */
module ClientRuntime {
  import opened Common
  import opened RunTypes
  import opened RunJournal
  import JournalSpec = RunJournalSpec
  import opened RunStoreSpec
  import opened RunStore
  import opened ClientCycle

  /** The places where a cycle waits and may end early. */
  datatype Await = AtOpen | AtRestore | AtPoll | AtSaveLease | AtAck | AtSaveAccepted | AtSaveRunning
                 | AtExecute | AtSavePaused | AtSaveResult | AtSubmit | AtSaveSynced

  datatype AckReply = AckReply(planId: Id, deviceId: Id, accepted: bool)

  datatype ResultReply = ResultReply(taskId: Id, planId: Id, deviceId: Id)

  /** `dies` names the await, if any, that throws or never returns; `output` is `None` when the
      executor throws. */
  datatype Answers = Answers(
    dies: Option<Await>, sessionId: Id, lease: Option<Lease>, chosenExecutor: Id, ack: AckReply,
    output: Option<ExecutorOutput>, accepted: ResultReply)

  datatype ReceiptState = OnlineEmpty | LeaseAccepted | ResultSynced

  datatype TaskInfo = TaskInfo(taskId: Id, planId: Id, executorId: Id, checkpointDigest: RunDigest)

  /** The fields of a cycle's receipt; `task` is there unless nothing was polled. */
  datatype Receipt = Receipt(state: ReceiptState, sessionId: Id, task: Option<TaskInfo>, executorInvoked: bool)

  /** One client: its store and a log of what it did to the outside world. */
  class Runtime {
    const store: RunCheckpointStore
    var history: History

    constructor (store: RunCheckpointStore)
      ensures this.store == store && history == History([], [], [], 0)
    {
      this.store := store;
      history := History([], [], [], 0);
    }

    ghost function At(phase: Phase): Client
      reads this, store
    {
      Client(store.deviceId, store.checkpoints, phase, history)
    }

    method Abort(cycle: Cycle)
      modifies this
      ensures At(Idle) == Aborted(old(At(Idle)), cycle)
    {
      history := history.(aborted := history.aborted + 1,
                          lost := if cycle.attempt.Some? then history.lost + [cycle.attempt.value] else history.lost);
    }

    /** Ends the cycle at an await. */
    method Die(cycle: Cycle, ghost phase: Phase, ghost past: Trace) returns (ghost trace: Trace)
      requires past.EndsAt(At(phase)) && !phase.Idle? && phase.cycle == cycle && Given(phase, Died, past.answers)
      modifies this
      ensures trace.Extends(past) && trace.EndsAt(At(Idle)) && history.aborted == old(history.aborted) + 1
      ensures history.invocations == old(history.invocations) && history.submissions == old(history.submissions)
    {
      ghost var before := At(phase);
      Abort(cycle);
      trace := past.Then(Died, before, At(Idle));
    }

    /** One awaited save. On success the trace ends where the cycle goes on. */
    method Save(cycle: Cycle, ghost j: JournalSpec.Journal, cp: Checkpoint, ghost next: AfterSave, dies: bool, ghost past: Trace)
      returns (saved: bool, ghost trace: Trace)
      requires past.EndsAt(At(Saving(cycle, j, cp, next))) && (dies <==> past.answers.dies == Some(AwaitOf(Saving(cycle, j, cp, next))))
      modifies this, store
      ensures trace.Extends(past)
      ensures history.invocations == old(history.invocations) && history.submissions == old(history.submissions)
      ensures saved ==> history == old(history) && trace.EndsAt(AfterSaved(At(Idle), cycle, j, next))
      ensures saved ==> trace.events == past.events + [Saved] && trace.Saves(cycle, cp, next)
      ensures !saved ==> trace.EndsAt(At(Idle)) && history.aborted == old(history.aborted) + 1
    {
      hide IsRun, Next, Enumerates, JournalSpec.Restore, RunStoreSpec.SaveRunCheckpoint, AfterSaved;
      ghost var phase := Saving(cycle, j, cp, next);
      if dies {
        trace := Die(cycle, phase, past);
        return false, trace;
      }
      ghost var before := At(phase);
      SaveStep(before);
      SaveErrKeeps(store.checkpoints, store.deviceId, cp, cycle.now);
      var r := store.SaveRunCheckpoint(cp, cycle.now);
      saved := r.Ok?;
      if !saved { Abort(cycle); }
      ghost var after := if saved then AfterSaved(At(Idle), cycle, j, next) else At(Idle);
      AfterSavedIgnoresPhase(At(phase), cycle, j, next);
      trace := past.Then(Saved, before, after);
    }

    /** Submits a stored result and marks it synced. */
    method SubmitResult(cycle: Cycle, journal: LocalRunJournal, taskId: Id, executorInvoked: bool, answers: Answers, ghost past: Trace)
      returns (receipt: Option<Receipt>, ghost trace: Trace)
      requires past.EndsAt(Submit(At(Idle), cycle, journal.View(), taskId)) && past.answers == answers
      requires executorInvoked <==> cycle.attempt.Some?
      modifies this, store, journal
      ensures trace.Extends(past) && trace.EndsAt(At(Idle))
      ensures history.aborted == old(history.aborted) + if receipt.None? then 1 else 0
      ensures receipt.Some? ==> trace.Reports(receipt.value)
    {
      hide IsRun, Next, Enumerates, JournalSpec.Restore, RunStoreSpec.SaveRunCheckpoint, AfterSaved, Step, StepSubmitting, Given;
      trace := past;
      if taskId !in journal.runs || journal.runs[taskId].run.state != CompletedPendingSync || journal.runs[taskId].run.result.None? {
        Abort(cycle);
        return None, trace;
      }
      ghost var before := At(Submitting(cycle, journal.View(), taskId, false));
      history := history.(submissions := history.submissions + [journal.runs[taskId].run.result.value]);
      SendStep(before);
      GivenAt(before.phase, answers);
      trace := past.Then(ResultSent, before, At(Submitting(cycle, journal.View(), taskId, true)));
      receipt, trace := MarkSubmitted(cycle, journal, taskId, executorInvoked, answers, trace);
    }

    /** The server's reply to a submission. */
    method MarkSubmitted(cycle: Cycle, journal: LocalRunJournal, taskId: Id, executorInvoked: bool, answers: Answers, ghost past: Trace)
      returns (receipt: Option<Receipt>, ghost trace: Trace)
      requires past.EndsAt(At(Submitting(cycle, journal.View(), taskId, true))) && past.answers == answers
      requires executorInvoked <==> cycle.attempt.Some?
      requires taskId in journal.runs && journal.runs[taskId].run.state == CompletedPendingSync && journal.runs[taskId].run.result.Some?
      modifies this, store, journal
      ensures trace.Extends(past) && trace.EndsAt(At(Idle))
      ensures history.aborted == old(history.aborted) + if receipt.None? then 1 else 0
      ensures receipt.Some? ==> trace.Reports(receipt.value)
    {
      hide IsRun, Next, Enumerates, JournalSpec.Restore, RunStoreSpec.SaveRunCheckpoint, AfterSaved, Step, StepSubmitting, Given, JournalSpec.MarkSynced;
      ghost var phase := Submitting(cycle, journal.View(), taskId, true);
      GivenAt(phase, answers);
      if answers.dies == Some(AtSubmit) {
        trace := Die(cycle, phase, past);
        return None, trace;
      }
      var run := journal.runs[taskId].run;
      var reply := answers.accepted;
      ghost var e := ResultAccepted(reply.taskId, reply.planId, reply.deviceId);
      ghost var before := At(phase);
      ReplyStep(before, reply);
      if reply.taskId != taskId || reply.planId != run.plan.planId || reply.deviceId != run.deviceId {
        Abort(cycle);
        trace := past.Then(e, before, At(Idle));
        return None, trace;
      }
      MarkSyncedKeepsRun(journal.View(), taskId, cycle.now);
      var synced := journal.MarkSynced(taskId, cycle.now);
      ghost var toSave := past.Then(e, before, At(Saving(cycle, journal.View(), synced.value, ThenFinish)));
      receipt, trace := SaveSynced(cycle, journal, synced.value, executorInvoked, answers, toSave);
    }

    /** The save after an accepted submission, and the receipt of the cycle. */
    method SaveSynced(cycle: Cycle, journal: LocalRunJournal, synced: Checkpoint, executorInvoked: bool, answers: Answers, ghost past: Trace)
      returns (receipt: Option<Receipt>, ghost trace: Trace)
      requires past.EndsAt(At(Saving(cycle, journal.View(), synced, ThenFinish))) && past.answers == answers
      requires executorInvoked <==> cycle.attempt.Some?
      requires past.events[|past.events| - 1] == ResultAccepted(answers.accepted.taskId, answers.accepted.planId, answers.accepted.deviceId)
      modifies this, store
      ensures trace.Extends(past) && trace.EndsAt(At(Idle))
      ensures history.aborted == old(history.aborted) + if receipt.None? then 1 else 0
      ensures receipt.Some? ==> trace.Reports(receipt.value)
    {
      hide IsRun, Next, Enumerates, AfterSaved, Step, Given;
      var saved;
      saved, trace := Save(cycle, journal.View(), synced, ThenFinish, answers.dies == Some(AtSaveSynced), past);
      FinishedAfterSave(At(Idle), cycle, journal.View());
      if !saved { return None, trace; }
      receipt := Some(Receipt(ResultSynced, answers.sessionId,
                              Some(TaskInfo(answers.accepted.taskId, synced.run.plan.planId, synced.run.executorId, synced.digest)), executorInvoked));
    }

    /** Pauses an interrupted run; the executor's error is then rethrown. */
    method PauseAndThrow(cycle: Cycle, journal: LocalRunJournal, taskId: Id, answers: Answers, ghost past: Trace) returns (ghost trace: Trace)
      requires past.EndsAt(PauseRun(At(Idle), cycle, journal.View(), taskId)) && past.answers == answers
      modifies this, store, journal
      ensures trace.Extends(past) && trace.EndsAt(At(Idle)) && history.aborted == old(history.aborted) + 1
    {
      hide IsRun, JournalSpec.Restore, RunStoreSpec.SaveRunCheckpoint, Next;
      var paused := journal.Pause(taskId, cycle.now);
      if paused.Err? {
        Abort(cycle);
        return past;
      }
      var saved;
      saved, trace := Save(cycle, journal.View(), paused.value, ThenThrow, answers.dies == Some(AtSavePaused), past);
      if saved { Abort(cycle); }
    }

    /** Executes an accepted or paused task. */
    method ExecuteRun(cycle: Cycle, journal: LocalRunJournal, taskId: Id, answers: Answers, ghost past: Trace)
      returns (receipt: Option<Receipt>, ghost trace: Trace)
      requires past.EndsAt(At(Executing(cycle, journal.View(), taskId))) && past.answers == answers && cycle.attempt.None? && taskId in journal.runs
      modifies this, store, journal
      ensures trace.Extends(past) && trace.EndsAt(At(Idle))
      ensures history.aborted == old(history.aborted) + if receipt.None? then 1 else 0
      ensures receipt.Some? ==> trace.Reports(receipt.value)
    {
      hide IsRun, Next, Enumerates, JournalSpec.Restore, RunStoreSpec.SaveRunCheckpoint, Resume, Submit, JournalSpec.CompletePendingSync, JournalSpec.Pause, Given;
      ghost var before := At(Executing(cycle, journal.View(), taskId));
      var run := journal.runs[taskId].run;
      history := history.(invocations := history.invocations + [Invocation(taskId, run.executorId, run.plan)]);
      var invoked := cycle.(attempt := Some(taskId));
      ExecutingStep(before, ExecutorInvoked);
      GivenAt(before.phase, answers);
      trace := past.Then(ExecutorInvoked, before, At(Executing(invoked, journal.View(), taskId)));
      receipt, trace := ConcludeRun(invoked, journal, taskId, answers, trace);
    }

    /** The executor's answer is saved before anything else; a failure pauses the run. */
    method ConcludeRun(cycle: Cycle, journal: LocalRunJournal, taskId: Id, answers: Answers, ghost past: Trace)
      returns (receipt: Option<Receipt>, ghost trace: Trace)
      requires past.EndsAt(At(Executing(cycle, journal.View(), taskId))) && past.answers == answers && cycle.attempt.Some? && taskId in journal.runs
      modifies this, store, journal
      ensures trace.Extends(past) && trace.EndsAt(At(Idle))
      ensures history.aborted == old(history.aborted) + if receipt.None? then 1 else 0
      ensures receipt.Some? ==> trace.Reports(receipt.value)
    {
      hide IsRun, Next, Enumerates, JournalSpec.Restore, RunStoreSpec.SaveRunCheckpoint, Resume, Submit, JournalSpec.CompletePendingSync, JournalSpec.Pause, Given;
      receipt := None;
      ghost var j := journal.View();
      ghost var phase := Executing(cycle, j, taskId);
      ghost var before := At(phase);
      GivenAt(phase, answers);
      if answers.dies == Some(AtExecute) {
        trace := Die(cycle, phase, past);
        return;
      }
      if answers.output.None? {
        ExecutingStep(before, ExecutorThrew);
        trace := past.Then(ExecutorThrew, before, PauseRun(At(phase), cycle, j, taskId));
        PauseRunIgnoresPhase(At(phase), cycle, j, taskId);
        trace := PauseAndThrow(cycle, journal, taskId, answers, trace);
        return;
      }
      ghost var e := ExecutorReturned(answers.output.value);
      ExecutingStep(before, e);
      var completed := journal.CompletePendingSync(taskId, answers.output.value, cycle.now);
      if completed.Err? {
        CompleteErrKeeps(j, taskId, answers.output.value, cycle.now);
        trace := past.Then(e, before, PauseRun(At(phase), cycle, j, taskId));
        PauseRunIgnoresPhase(At(phase), cycle, j, taskId);
        trace := PauseAndThrow(cycle, journal, taskId, answers, trace);
        return;
      }
      ghost var saving := Saving(cycle, journal.View(), completed.value, ThenSubmit(taskId));
      trace := past.Then(e, before, At(saving));
      var saved;
      saved, trace := Save(cycle, journal.View(), completed.value, ThenSubmit(taskId), answers.dies == Some(AtSaveResult), trace);
      if saved {
        receipt, trace := SubmitResult(cycle, journal, taskId, true, answers, trace);
      }
    }

    /** Takes one local task to its synced result. */
    method ResumeRun(cycle: Cycle, journal: LocalRunJournal, taskId: Id, answers: Answers, ghost past: Trace)
      returns (receipt: Option<Receipt>, ghost trace: Trace)
      requires past.EndsAt(Resume(At(Idle), cycle, journal.View(), taskId)) && past.answers == answers && cycle.attempt.None?
      modifies this, store, journal
      ensures trace.Extends(past) && trace.EndsAt(At(Idle))
      ensures history.aborted == old(history.aborted) + if receipt.None? then 1 else 0
      ensures receipt.Some? ==> trace.Reports(receipt.value)
    {
      hide IsRun, JournalSpec.Restore, RunStoreSpec.SaveRunCheckpoint, Next, Submit, JournalSpec.Begin;
      receipt, trace := None, past;
      if taskId !in journal.runs {
        Abort(cycle);
        return;
      }
      var run := journal.runs[taskId].run;
      if run.state == Accepted || run.state == Paused {
        if run.executorId !in cycle.executors {
          Abort(cycle);
          return;
        }
        BeginKeepsTask(journal.View(), taskId, cycle.now);
        var begun := journal.Begin(taskId, cycle.now);
        if begun.Err? {
          Abort(cycle);
          return;
        }
        var saved;
        saved, trace := Save(cycle, journal.View(), begun.value, ThenExecute(taskId), answers.dies == Some(AtSaveRunning), past);
        if saved {
          receipt, trace := ExecuteRun(cycle, journal, taskId, answers, trace);
        }
      } else {
        receipt, trace := SubmitResult(cycle, journal, taskId, false, answers, past);
      }
    }

    /** Accepts an offered lease, saves it, acknowledges it and saves the acceptance. */
    method TakeLease(cycle: Cycle, journal: LocalRunJournal, offer: Offer, answers: Answers, ghost past: Trace)
      returns (taken: Option<Checkpoint>, ghost trace: Trace)
      requires past.EndsAt(AcceptOffer(At(Idle), cycle, journal.View(), offer)) && past.answers == answers
      modifies this, store, journal
      ensures trace.Extends(past)
      ensures history.invocations == old(history.invocations) && history.submissions == old(history.submissions)
      ensures taken.Some? ==> history == old(history) && trace.EndsAt(AfterSaved(At(Idle), cycle, journal.View(), ThenAccepted(offer.lease.taskId)))
      ensures taken.Some? ==> trace.Saves(cycle, taken.value, ThenAccepted(offer.lease.taskId))
      ensures taken == None ==> trace.EndsAt(At(Idle)) && history.aborted == old(history.aborted) + 1
    {
      hide IsRun, Next, Enumerates, JournalSpec.Restore, RunStoreSpec.SaveRunCheckpoint, Resume, Submit, JournalSpec.AcceptLease, JournalSpec.MarkLeaseAcknowledged, Given;
      taken, trace := None, past;
      var lease := offer.lease;
      var accepted := journal.AcceptLease(lease, offer.executorId, cycle.now);
      if accepted.Err? {
        Abort(cycle);
        return;
      }
      var saved;
      saved, trace := Save(cycle, journal.View(), accepted.value, ThenAcknowledge(lease), answers.dies == Some(AtSaveLease), trace);
      if !saved { return; }
      taken, trace := AcknowledgeLease(cycle, journal, lease, answers, trace);
    }

    method AcknowledgeLease(cycle: Cycle, journal: LocalRunJournal, lease: Lease, answers: Answers, ghost past: Trace)
      returns (taken: Option<Checkpoint>, ghost trace: Trace)
      requires past.EndsAt(At(Acknowledging(cycle, journal.View(), lease))) && past.answers == answers
      modifies this, store, journal
      ensures trace.Extends(past)
      ensures history.invocations == old(history.invocations) && history.submissions == old(history.submissions)
      ensures taken.Some? ==> history == old(history) && trace.EndsAt(AfterSaved(At(Idle), cycle, journal.View(), ThenAccepted(lease.taskId)))
      ensures taken.Some? ==> trace.Saves(cycle, taken.value, ThenAccepted(lease.taskId))
      ensures taken == None ==> trace.EndsAt(At(Idle)) && history.aborted == old(history.aborted) + 1
    {
      hide IsRun, Next, Enumerates, JournalSpec.Restore, RunStoreSpec.SaveRunCheckpoint, Resume, Submit, JournalSpec.MarkLeaseAcknowledged, Given;
      taken := None;
      ghost var phase := Acknowledging(cycle, journal.View(), lease);
      GivenAt(phase, answers);
      ghost var before := At(phase);
      if answers.dies == Some(AtAck) {
        trace := Die(cycle, phase, past);
        return;
      }
      var ack := answers.ack;
      ghost var e := AckReceived(ack.planId, ack.deviceId, ack.accepted);
      AckStep(before, ack.planId, ack.deviceId, ack.accepted);
      if ack.planId != lease.planId || ack.deviceId != lease.deviceId || !ack.accepted {
        Abort(cycle);
        trace := past.Then(e, before, At(Idle));
        return;
      }
      var marked := journal.MarkLeaseAcknowledged(lease.taskId, cycle.now);
      if marked.Err? {
        Abort(cycle);
        trace := past.Then(e, before, At(Idle));
        return;
      }
      trace := past.Then(e, before, At(Saving(cycle, journal.View(), marked.value, ThenAccepted(lease.taskId))));
      var saved;
      saved, trace := Save(cycle, journal.View(), marked.value, ThenAccepted(lease.taskId), answers.dies == Some(AtSaveAccepted), trace);
      if saved { taken := Some(marked.value); }
    }

    ghost predicate Keyed()
      reads store
    {
      forall id | id in store.checkpoints :: store.checkpoints[id].run.taskId == id
    }

    /** Resumes local work, or else polls for one lease and executes it. */
    method RunExecutionCycle(now: Millis, executors: set<Id>, answers: Answers) returns (receipt: Option<Receipt>, ghost trace: Trace)
      requires Keyed()
      modifies this, store
      ensures trace.answers == answers && trace.StartsAt(old(At(Idle)), Execute, now, executors) && trace.EndsAt(At(Idle))
      ensures history.aborted == old(history.aborted) + if receipt.None? then 1 else 0
      ensures receipt.Some? ==> trace.Reports(receipt.value) && (receipt.value.executorInvoked <==> ExecutorInvoked in trace.events)
    {
      hide IsRun, Next, Enumerates, JournalSpec.Restore, RunStoreSpec.SaveRunCheckpoint, Resume, Submit, AcceptOffer, Given;
      receipt := None;
      var cycle := Cycle(Execute, now, executors, None);
      OpeningSteps(At(Idle), Execute, now, executors);
      ghost var opening := Trace.Begun(At(Idle), Execute, now, executors, answers);
      GivenAt(Opening(cycle), answers);
      GivenAt(Restoring(cycle, None), answers);
      if answers.dies == Some(AtOpen) {
        trace := Die(cycle, Opening(cycle), opening);
        return;
      }
      ghost var restoring := opening.Then(SessionOpened, At(Opening(cycle)), At(Restoring(cycle, None)));
      if answers.dies == Some(AtRestore) {
        trace := Die(cycle, Restoring(cycle, None), restoring);
        return;
      }
      var journal, error, rows := store.RestoreRunJournal(now);
      ghost var before := At(Restoring(cycle, None));
      RestoringStep(before, rows);
      if error.Some? {
        Abort(cycle);
        trace := restoring.Then(RowsRead(rows), before, At(Idle));
        return;
      }
      trace := restoring.Then(RowsRead(rows), before, AfterRestore(before, cycle, journal.View(), None));
      var unfinished := FirstIn(journal.order, journal.runs, UNFINISHED);
      if unfinished.Some? {
        ResumeIgnoresPhase(before, cycle, journal.View(), unfinished.value);
        receipt, trace := ResumeRun(cycle, journal, unfinished.value, answers, trace);
      } else {
        receipt, trace := PollAndExecute(cycle, journal, answers, trace);
      }
      if receipt.Some? { ReceiptFlagMeansInvoked(trace, old(At(Idle)), Execute, now, executors, At(Idle), receipt.value); }
    }

    /** An empty poll; a task left leased needs its acknowledgement reconciled first. */
    method FoundNothing(cycle: Cycle, journal: LocalRunJournal, answers: Answers, ghost past: Trace)
      returns (receipt: Option<Receipt>, ghost trace: Trace)
      requires past.EndsAt(At(Polling(cycle, Some(journal.View())))) && past.answers == answers && cycle.kind == Execute && cycle.attempt.None?
      requires answers.lease.None? && answers.dies != Some(AtPoll)
      modifies this
      ensures trace.Extends(past) && trace.EndsAt(At(Idle))
      ensures history.aborted == old(history.aborted) + if receipt.None? then 1 else 0
      ensures receipt.Some? ==> trace.Reports(receipt.value)
    {
      hide IsRun, Next, Enumerates, JournalSpec.Restore, RunStoreSpec.SaveRunCheckpoint, Resume, Submit, AcceptOffer, Given;
      receipt := None;
      ghost var before := At(Polling(cycle, Some(journal.View())));
      GivenAt(before.phase, answers);
      PollingStep(before, NothingPolled);
      var unacknowledged := FirstIn(journal.order, journal.runs, {Leased});
      if unacknowledged.Some? { Abort(cycle); } else { receipt := Some(Receipt(OnlineEmpty, answers.sessionId, None, false)); }
      trace := past.Then(NothingPolled, before, At(Idle));
    }

    method PollAndExecute(cycle: Cycle, journal: LocalRunJournal, answers: Answers, ghost past: Trace)
      returns (receipt: Option<Receipt>, ghost trace: Trace)
      requires past.EndsAt(At(Polling(cycle, Some(journal.View())))) && past.answers == answers && cycle.kind == Execute && cycle.attempt.None?
      modifies this, store, journal
      ensures trace.Extends(past) && trace.EndsAt(At(Idle))
      ensures history.aborted == old(history.aborted) + if receipt.None? then 1 else 0
      ensures receipt.Some? ==> trace.Reports(receipt.value)
    {
      hide IsRun, Next, Enumerates, JournalSpec.Restore, RunStoreSpec.SaveRunCheckpoint, Resume, Submit, AcceptOffer, Given;
      receipt := None;
      ghost var phase := Polling(cycle, Some(journal.View()));
      GivenAt(phase, answers);
      ghost var before := At(phase);
      if answers.dies == Some(AtPoll) {
        trace := Die(cycle, phase, past);
        return;
      }
      if answers.lease.None? {
        receipt, trace := FoundNothing(cycle, journal, answers, past);
        return;
      }
      var lease := answers.lease.value;
      var offer := Offer(lease, answers.chosenExecutor);
      ghost var e := LeasePolled(lease, answers.chosenExecutor);
      PollingStep(before, e);
      if lease.deviceId != store.deviceId || lease.externalWrites {
        Abort(cycle);
        trace := past.Then(e, before, At(Idle));
        return;
      }
      trace := past.Then(e, before, AcceptOffer(before, cycle, journal.View(), offer));
      AcceptOfferIgnoresPhase(before, cycle, journal.View(), offer);
      var taken;
      taken, trace := TakeLease(cycle, journal, offer, answers, trace);
      if taken.Some? {
        receipt, trace := ResumeRun(cycle, journal, lease.taskId, answers, trace);
      }
    }

    /** Polls once and durably accepts at most one lease; it never invokes an executor. */
    method RunInactiveCycle(now: Millis, answers: Answers) returns (receipt: Option<Receipt>, ghost trace: Trace)
      requires Keyed()
      modifies this, store
      ensures trace.answers == answers && trace.StartsAt(old(At(Idle)), AcceptOnly, now, {}) && trace.EndsAt(At(Idle))
      ensures history.aborted == old(history.aborted) + if receipt.None? then 1 else 0
      ensures receipt.Some? ==> trace.Reports(receipt.value) && (receipt.value.executorInvoked <==> ExecutorInvoked in trace.events)
      ensures history.invocations == old(history.invocations) && history.submissions == old(history.submissions)
    {
      hide IsRun, Next, Enumerates, JournalSpec.Restore, RunStoreSpec.SaveRunCheckpoint, Resume, Submit, AcceptOffer, Given;
      receipt := None;
      var cycle := Cycle(AcceptOnly, now, {}, None);
      OpeningSteps(At(Idle), AcceptOnly, now, {});
      ghost var opening := Trace.Begun(At(Idle), AcceptOnly, now, {}, answers);
      GivenAt(Opening(cycle), answers);
      if answers.dies == Some(AtOpen) {
        trace := Die(cycle, Opening(cycle), opening);
        return;
      }
      ghost var polling := opening.Then(SessionOpened, At(Opening(cycle)), At(Polling(cycle, None)));
      receipt, trace := PollAndTake(cycle, answers, polling);
      if receipt.Some? { ReceiptFlagMeansInvoked(trace, old(At(Idle)), AcceptOnly, now, {}, At(Idle), receipt.value); }
    }

    /** A poll before anything is restored. */
    method PollAndTake(cycle: Cycle, answers: Answers, ghost past: Trace) returns (receipt: Option<Receipt>, ghost trace: Trace)
      requires Keyed() && past.EndsAt(At(Polling(cycle, None))) && past.answers == answers && cycle.kind == AcceptOnly && cycle.attempt.None?
      modifies this, store
      ensures trace.Extends(past) && trace.EndsAt(At(Idle))
      ensures history.aborted == old(history.aborted) + if receipt.None? then 1 else 0
      ensures receipt.Some? ==> trace.Reports(receipt.value)
      ensures history.invocations == old(history.invocations) && history.submissions == old(history.submissions)
    {
      hide IsRun, Next, Enumerates, JournalSpec.Restore, RunStoreSpec.SaveRunCheckpoint, Resume, Submit, AcceptOffer, Given;
      receipt := None;
      ghost var before := At(Polling(cycle, None));
      GivenAt(before.phase, answers);
      if answers.dies == Some(AtPoll) {
        trace := Die(cycle, before.phase, past);
        return;
      }
      if answers.lease.None? {
        PollingStep(before, NothingPolled);
        trace := past.Then(NothingPolled, before, At(Idle));
        receipt := Some(Receipt(OnlineEmpty, answers.sessionId, None, false));
        return;
      }
      var lease := answers.lease.value;
      var offer := Offer(lease, answers.chosenExecutor);
      ghost var e := LeasePolled(lease, answers.chosenExecutor);
      PollingStep(before, e);
      if lease.deviceId != store.deviceId || lease.externalWrites {
        Abort(cycle);
        trace := past.Then(e, before, At(Idle));
        return;
      }
      ghost var restoring := past.Then(e, before, At(Restoring(cycle, Some(offer))));
      receipt, trace := RestoreAndTake(cycle, offer, answers, restoring);
    }

    /** The lease is accepted into the restored journal. */
    method RestoreAndTake(cycle: Cycle, offer: Offer, answers: Answers, ghost past: Trace)
      returns (receipt: Option<Receipt>, ghost trace: Trace)
      requires Keyed() && past.EndsAt(At(Restoring(cycle, Some(offer)))) && past.answers == answers && cycle.kind == AcceptOnly && cycle.attempt.None?
      requires answers.lease == Some(offer.lease) && answers.chosenExecutor == offer.executorId
      modifies this, store
      ensures trace.Extends(past) && trace.EndsAt(At(Idle))
      ensures history.aborted == old(history.aborted) + if receipt.None? then 1 else 0
      ensures receipt.Some? ==> trace.Reports(receipt.value)
      ensures history.invocations == old(history.invocations) && history.submissions == old(history.submissions)
    {
      hide IsRun, Next, Enumerates, JournalSpec.Restore, RunStoreSpec.SaveRunCheckpoint, Resume, Submit, AcceptOffer, Given;
      receipt := None;
      GivenAt(Restoring(cycle, Some(offer)), answers);
      if answers.dies == Some(AtRestore) {
        trace := Die(cycle, Restoring(cycle, Some(offer)), past);
        return;
      }
      var journal, error, rows := store.RestoreRunJournal(cycle.now);
      ghost var before := At(Restoring(cycle, Some(offer)));
      RestoringStep(before, rows);
      if error.Some? {
        Abort(cycle);
        trace := past.Then(RowsRead(rows), before, At(Idle));
        return;
      }
      AcceptOfferIgnoresPhase(before, cycle, journal.View(), offer);
      trace := past.Then(RowsRead(rows), before, AfterRestore(before, cycle, journal.View(), Some(offer)));
      var taken;
      taken, trace := TakeLease(cycle, journal, offer, answers, trace);
      if taken.Some? {
        receipt := Some(Receipt(LeaseAccepted, answers.sessionId,
                                Some(TaskInfo(offer.lease.taskId, offer.lease.planId, offer.executorId, taken.value.digest)), false));
      }
    }
  }

  function AwaitOf(phase: Phase): Await
    requires !phase.Idle?
  {
    match phase
    case Opening(_) => AtOpen
    case Restoring(_, _) => AtRestore
    case Polling(_, _) => AtPoll
    case Saving(_, _, _, next) => (match next
                                   case ThenAcknowledge(_) => AtSaveLease
                                   case ThenAccepted(_) => AtSaveAccepted
                                   case ThenExecute(_) => AtSaveRunning
                                   case ThenThrow => AtSavePaused
                                   case ThenSubmit(_) => AtSaveResult
                                   case ThenFinish => AtSaveSynced)
    case Acknowledging(_, _, _) => AtAck
    case Executing(_, _, _) => AtExecute
    case Submitting(_, _, _, _) => AtSubmit
  }

  /** The event that the answers of the outside world make of a phase; only the order of the rows a
      restore reads is left open. */
  predicate Given(phase: Phase, e: Event, a: Answers) {
    match phase
    case Idle => false
    case Opening(_) => e == if a.dies == Some(AtOpen) then Died else SessionOpened
    case Restoring(_, _) => if a.dies == Some(AtRestore) then e == Died else e.RowsRead?
    case Polling(_, _) =>
      e == if a.dies == Some(AtPoll) then Died
           else if a.lease.None? then NothingPolled else LeasePolled(a.lease.value, a.chosenExecutor)
    case Saving(_, _, _, _) => e == if a.dies == Some(AwaitOf(phase)) then Died else Saved
    case Acknowledging(_, _, _) =>
      e == if a.dies == Some(AtAck) then Died else AckReceived(a.ack.planId, a.ack.deviceId, a.ack.accepted)
    case Executing(cycle, _, _) =>
      e == if cycle.attempt.None? then ExecutorInvoked
           else if a.dies == Some(AtExecute) then Died
           else if a.output.None? then ExecutorThrew else ExecutorReturned(a.output.value)
    case Submitting(_, _, _, sent) =>
      e == if !sent then ResultSent
           else if a.dies == Some(AtSubmit) then Died
           else ResultAccepted(a.accepted.taskId, a.accepted.planId, a.accepted.deviceId)
  }

  /** The run of one cycle so far: its first event starts it, and each later one is what the answers give. */
  datatype Trace = Trace(states: seq<Client>, events: seq<Event>, answers: Answers) {
    static ghost function Begun(c: Client, kind: CycleKind, now: Millis, executors: set<Id>, answers: Answers): (trace: Trace)
      requires c.phase == Idle
      ensures trace.answers == answers && trace.EndsAt(c.(phase := Opening(Cycle(kind, now, executors, None))))
      ensures trace.StartsAt(c, kind, now, executors)
    {
      Trace([c, c.(phase := Opening(Cycle(kind, now, executors, None)))], [Started(kind, now, executors)], answers)
    }

    ghost predicate StartsAt(c: Client, kind: CycleKind, now: Millis, executors: set<Id>) {
      |states| > 0 && |events| > 0 && states[0] == c && events[0] == Started(kind, now, executors)
    }

    ghost predicate EndsAt(c: Client) {
      && IsRun(states, events) && events != [] && |states| == |events| + 1 && states[|states| - 1] == c
      && forall i | 1 <= i < |events| :: Given(states[i].phase, events[i], answers)
    }

    ghost predicate Extends(past: Trace) {
      past.states <= states && past.events <= events && answers == past.answers
    }

    /** The run ends with a save of this checkpoint. */
    ghost predicate Saves(cycle: Cycle, cp: Checkpoint, next: AfterSave) {
      var n := |events|;
      && n >= 2 && |states| == n + 1 && events[n - 1] == Saved
      && states[n - 1].phase.Saving? && states[n - 1].phase.cycle == cycle && states[n - 1].phase.cp == cp && states[n - 1].phase.next == next
    }

    /** A receipt says how the run ended: nothing to do, a saved acceptance of the polled lease, or a reply for
        the task and its saved synchronisation; with the plan, executor and digest of what was saved. */
    ghost predicate Reports(receipt: Receipt) {
      var n := |events|;
      && n >= 2 && |states| == n + 1 && !states[n - 1].phase.Idle?
      && receipt.sessionId == answers.sessionId
      && var last := states[n - 1].phase;
         && (receipt.executorInvoked <==> last.cycle.attempt.Some?)
         && match receipt.state
            case OnlineEmpty => events[n - 1] == NothingPolled && receipt.task == None
            case LeaseAccepted =>
              && events[n - 1] == Saved && last.Saving? && answers.lease.Some? && last.next == ThenAccepted(answers.lease.value.taskId)
              && receipt.task == Some(TaskInfo(
                   answers.lease.value.taskId, answers.lease.value.planId, answers.chosenExecutor, last.cp.digest))
            case ResultSynced =>
              && events[n - 1] == Saved && last.Saving? && last.next == ThenFinish && events[n - 2].ResultAccepted?
              && receipt.task == Some(TaskInfo(
                   events[n - 2].taskId, last.cp.run.plan.planId, last.cp.run.executorId, last.cp.digest))
    }

    /** One more step. */
    ghost function Then(e: Event, before: Client, after: Client): (longer: Trace)
      requires EndsAt(before) && Step(before, e, after) && Given(before.phase, e, answers)
      ensures longer.EndsAt(after) && longer.Extends(this)
      ensures longer.events == events + [e] && longer.states == states + [after]
    {
      hide Step, Given;
      var longer := Trace(states + [after], events + [e], answers);
      assert forall i | 0 <= i < |longer.events| :: Step(longer.states[i], longer.events[i], longer.states[i + 1]) by {
        forall i | 0 <= i < |longer.events| ensures Step(longer.states[i], longer.events[i], longer.states[i + 1]) {
          if i < |events| {
            assert Step(states[i], events[i], states[i + 1]);
          }
        }
      }
      assert forall i | 1 <= i < |longer.events| :: Given(longer.states[i].phase, longer.events[i], answers) by {
        forall i | 1 <= i < |longer.events| ensures Given(longer.states[i].phase, longer.events[i], answers) {
          if i < |events| {
            assert Given(states[i].phase, events[i], answers);
          }
        }
      }
      longer
    }
  }

  lemma StepKeepsAttempt(c: Client, e: Event, c': Client)
    requires Next(c, e) == Some(c') && !c.phase.Idle? && !c'.phase.Idle?
    ensures c'.phase.cycle.attempt.Some? <==> c.phase.cycle.attempt.Some? || e == ExecutorInvoked
  {
    hide JournalSpec.Restore, RunStoreSpec.SaveRunCheckpoint, JournalSpec.AcceptLease, JournalSpec.Begin, JournalSpec.Pause, JournalSpec.CompletePendingSync, JournalSpec.MarkSynced, JournalSpec.MarkLeaseAcknowledged, FirstIn;
  }

  /** A cycle's record of an attempt says whether its run so far holds an invocation. */
  lemma {:induction false} AttemptMeansInvoked(trace: Trace, c: Client, kind: CycleKind, now: Millis, executors: set<Id>, last: Client, k: nat)
    requires c.phase == Idle && trace.StartsAt(c, kind, now, executors) && trace.EndsAt(last)
    requires 1 <= k < |trace.states| && forall i :: 1 <= i <= k ==> !trace.states[i].phase.Idle?
    ensures trace.states[k].phase.cycle.attempt.Some? <==> ExecutorInvoked in trace.events[..k]
  {
    hide Next, Given;
    var before, e := trace.states[k - 1], trace.events[k - 1];
    assert Step(before, e, trace.states[k - 1 + 1]);
    assert trace.events[..k] == trace.events[..k - 1] + [e];
    if k == 1 {
      StartedCycle(before, kind, now, executors, trace.states[1]);
    } else {
      AttemptMeansInvoked(trace, c, kind, now, executors, last, k - 1);
      StepKeepsAttempt(before, e, trace.states[k]);
    }
  }

  lemma StartedCycle(c: Client, kind: CycleKind, now: Millis, executors: set<Id>, c': Client)
    requires c.phase == Idle && Next(c, Started(kind, now, executors)) == Some(c')
    ensures c'.phase == Opening(Cycle(kind, now, executors, None))
  {
  }

  /** Only the first event of a trace can leave the idle phase, so a cycle is busy until its end. */
  lemma BusyUntilTheEnd(trace: Trace, c: Client, kind: CycleKind, now: Millis, executors: set<Id>, last: Client, k: nat)
    requires c.phase == Idle && trace.StartsAt(c, kind, now, executors) && trace.EndsAt(last) && 1 <= k < |trace.events|
    ensures !trace.states[k].phase.Idle?
  {
    assert Given(trace.states[k].phase, trace.events[k], trace.answers);
  }

  /** A receipt's flag is set exactly when the executor was invoked in its cycle. */
  lemma ReceiptFlagMeansInvoked(trace: Trace, c: Client, kind: CycleKind, now: Millis, executors: set<Id>, last: Client, receipt: Receipt)
    requires c.phase == Idle && trace.StartsAt(c, kind, now, executors) && trace.EndsAt(last) && trace.Reports(receipt)
    ensures receipt.executorInvoked <==> ExecutorInvoked in trace.events
  {
    hide IsRun, Given, Next;
    var n := |trace.events|;
    forall i | 1 <= i <= n - 1 ensures !trace.states[i].phase.Idle? { BusyUntilTheEnd(trace, c, kind, now, executors, last, i); }
    AttemptMeansInvoked(trace, c, kind, now, executors, last, n - 1);
    assert trace.events == trace.events[..n - 1] + [trace.events[n - 1]];
  }

  lemma AfterSavedIgnoresPhase(c: Client, cycle: Cycle, j: JournalSpec.Journal, next: AfterSave)
    ensures AfterSaved(c, cycle, j, next) == AfterSaved(c.(phase := Idle), cycle, j, next)
  {
  }

  lemma PauseRunIgnoresPhase(c: Client, cycle: Cycle, j: JournalSpec.Journal, taskId: Id)
    ensures PauseRun(c, cycle, j, taskId) == PauseRun(c.(phase := Idle), cycle, j, taskId)
  {
  }

  lemma CompleteErrKeeps(j: JournalSpec.Journal, taskId: Id, output: ExecutorOutput, now: Millis)
    ensures JournalSpec.CompletePendingSync(j, taskId, output, now).1.Err? ==> JournalSpec.CompletePendingSync(j, taskId, output, now).0 == j
  {
    hide PrivacyBounded;
  }

  lemma BeginKeepsTask(j: JournalSpec.Journal, taskId: Id, now: Millis)
    requires taskId in j.runs
    ensures taskId in JournalSpec.Begin(j, taskId, now).0.runs
  {
  }

  lemma ResumeIgnoresPhase(c: Client, cycle: Cycle, j: JournalSpec.Journal, taskId: Id)
    ensures Resume(c, cycle, j, taskId) == Resume(c.(phase := Idle), cycle, j, taskId)
  {
  }

  lemma AcceptOfferIgnoresPhase(c: Client, cycle: Cycle, j: JournalSpec.Journal, offer: Offer)
    ensures AcceptOffer(c, cycle, j, offer) == AcceptOffer(c.(phase := Idle), cycle, j, offer)
  {
    hide JournalSpec.AcceptLease;
  }

  lemma FinishedAfterSave(c: Client, cycle: Cycle, j: JournalSpec.Journal)
    ensures AfterSaved(c, cycle, j, ThenFinish) == c.(phase := Idle)
  {
  }

  // ---- Single steps, as the methods use them ----

  lemma GivenAt(phase: Phase, a: Answers)
    ensures phase.Opening? ==> Given(phase, if a.dies == Some(AtOpen) then Died else SessionOpened, a)
    ensures phase.Restoring? && a.dies == Some(AtRestore) ==> Given(phase, Died, a)
    ensures phase.Restoring? && a.dies != Some(AtRestore) ==> forall rows :: Given(phase, RowsRead(rows), a)
    ensures phase.Polling? ==>
      Given(phase, if a.dies == Some(AtPoll) then Died
                   else if a.lease.None? then NothingPolled else LeasePolled(a.lease.value, a.chosenExecutor), a)
    ensures phase.Acknowledging? ==>
      Given(phase, if a.dies == Some(AtAck) then Died else AckReceived(a.ack.planId, a.ack.deviceId, a.ack.accepted), a)
    ensures phase.Executing? && phase.cycle.attempt.None? ==> Given(phase, ExecutorInvoked, a)
    ensures phase.Executing? && phase.cycle.attempt.Some? ==>
      Given(phase, if a.dies == Some(AtExecute) then Died
                   else if a.output.None? then ExecutorThrew else ExecutorReturned(a.output.value), a)
    ensures phase.Submitting? && !phase.sent ==> Given(phase, ResultSent, a)
    ensures phase.Submitting? && phase.sent ==>
      Given(phase, if a.dies == Some(AtSubmit) then Died
                   else ResultAccepted(a.accepted.taskId, a.accepted.planId, a.accepted.deviceId), a)
  {
  }

  lemma MarkSyncedKeepsRun(j: JournalSpec.Journal, taskId: Id, now: Millis)
    requires taskId in j.runs && j.runs[taskId].run.state == CompletedPendingSync && j.runs[taskId].run.result.Some?
    ensures var r := JournalSpec.MarkSynced(j, taskId, now).1;
            r.Ok? && r.value.run.plan == j.runs[taskId].run.plan && r.value.run.executorId == j.runs[taskId].run.executorId
  {
  }

  lemma AckStep(c: Client, planId: Id, deviceId: Id, accepted: bool)
    requires c.phase.Acknowledging?
    ensures var Acknowledging(cycle, j, lease) := c.phase;
            var (next, r) := JournalSpec.MarkLeaseAcknowledged(j, lease.taskId, cycle.now);
            Step(c, AckReceived(planId, deviceId, accepted),
                 if planId != lease.planId || deviceId != lease.deviceId || !accepted || r.Err? then Aborted(c, cycle)
                 else c.(phase := Saving(cycle, next, r.value, ThenAccepted(lease.taskId))))
  {
  }

  lemma SendStep(c: Client)
    requires c.phase.Submitting? && !c.phase.sent && JournalSpec.ResultForSync(c.phase.journal, c.phase.taskId).Ok?
    ensures Step(c, ResultSent,
                 c.(phase := c.phase.(sent := true),
                    history := c.history.(submissions := c.history.submissions
                                            + [JournalSpec.ResultForSync(c.phase.journal, c.phase.taskId).value])))
  {
  }

  lemma ReplyStep(c: Client, reply: ResultReply)
    requires c.phase.Submitting? && c.phase.sent && c.phase.taskId in c.phase.journal.runs
    ensures var Submitting(cycle, j, t, _) := c.phase; var run := j.runs[t].run;
            var (next, r) := JournalSpec.MarkSynced(j, t, cycle.now);
            Step(c, ResultAccepted(reply.taskId, reply.planId, reply.deviceId),
                 if reply.taskId != t || reply.planId != run.plan.planId || reply.deviceId != run.deviceId || r.Err? then Aborted(c, cycle)
                 else c.(phase := Saving(cycle, next, r.value, ThenFinish)))
  {
    hide JournalSpec.MarkSynced;
  }

  lemma SaveStep(c: Client)
    requires c.phase.Saving?
    ensures var Saving(cycle, j, cp, next) := c.phase;
            var (table, r) := RunStoreSpec.SaveRunCheckpoint(c.table, c.deviceId, cp, cycle.now);
            Step(c, Saved, if r.Err? then Aborted(c, cycle) else AfterSaved(c.(table := table), cycle, j, next))
  {
    hide RunStoreSpec.SaveRunCheckpoint, AfterSaved;
  }

  lemma SaveErrKeeps(table: Table, deviceId: Id, cp: Checkpoint, now: Millis)
    ensures RunStoreSpec.SaveRunCheckpoint(table, deviceId, cp, now).1.Err? ==> RunStoreSpec.SaveRunCheckpoint(table, deviceId, cp, now).0 == table
  {
    hide JournalSpec.Restore;
  }

  lemma PollingStep(c: Client, e: Event)
    requires c.phase.Polling? && e != Died && !e.RowsRead?
    ensures var Polling(cycle, restored) := c.phase;
            StepPolling(c, cycle, restored, e).Some? ==> Step(c, e, StepPolling(c, cycle, restored, e).value)
  {
    hide StepPolling;
  }

  lemma ExecutingStep(c: Client, e: Event)
    requires c.phase.Executing? && e != Died && !e.RowsRead?
    ensures var Executing(cycle, j, t) := c.phase;
            StepExecuting(c, cycle, j, t, e).Some? ==> Step(c, e, StepExecuting(c, cycle, j, t, e).value)
  {
    hide StepExecuting;
  }

  lemma OpeningSteps(c: Client, kind: CycleKind, now: Millis, executors: set<Id>)
    requires c.phase == Idle
    ensures var cycle := Cycle(kind, now, executors, None);
            && Step(c, Started(kind, now, executors), c.(phase := Opening(cycle)))
            && Step(c.(phase := Opening(cycle)), SessionOpened,
                    c.(phase := if kind == AcceptOnly then Polling(cycle, None) else Restoring(cycle, None)))
  {
  }

  lemma RestoringStep(c: Client, rows: seq<Checkpoint>)
    requires c.phase.Restoring? && Enumerates(rows, c.table)
    ensures var Restoring(cycle, offer) := c.phase; var r := JournalSpec.Restore(rows, cycle.now);
            Step(c, RowsRead(rows), if r.Err? then Aborted(c, cycle) else AfterRestore(c, cycle, r.value, offer))
  {
    hide AfterRestore, Enumerates, JournalSpec.Restore;
  }
}
