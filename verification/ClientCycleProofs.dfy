/** Invariants of every run of the two client cycles, whatever the server and the executors answer
    and wherever cycles die. */
module ClientCycleProofs {
  import opened Common
  import opened RunTypes
  import opened RunJournalSpec
  import opened RunJournalProofs
  import opened RunStoreSpec
  import opened ClientCycle

  // ---- The invariant ----

  ghost predicate Current(cp: Checkpoint, now: Millis) {
    cp.run.result.None? ==> PlanValid(cp.run.plan, now)
  }

  /** The in-memory journal is sound and never behind the durable table. */
  ghost predicate JournalAhead(table: Table, deviceId: Id, j: Journal, now: Millis) {
    && JournalInv(j)
    && (forall id | id in j.runs :: j.runs[id].run.deviceId == deviceId && Current(j.runs[id], now))
    && (forall id | id in table :: id in j.runs && Extends(table[id], j.runs[id]))
  }

  /** The task's current checkpoint has been saved. */
  ghost predicate InStep(table: Table, j: Journal, taskId: Id) {
    taskId in table && taskId in j.runs && j.runs[taskId] == table[taskId]
  }

  predicate AttemptOnly(cycle: Cycle, taskId: Id) {
    cycle.attempt.Some? ==> cycle.attempt.value == taskId
  }

  ghost predicate SavingInv(cycle: Cycle, cp: Checkpoint, next: AfterSave) {
    match next
    case ThenAcknowledge(lease) => lease.taskId == cp.run.taskId && cycle.attempt.None?
    case ThenAccepted(t) => t == cp.run.taskId && cp.run.state == Accepted && cycle.attempt.None?
    case ThenExecute(t) => t == cp.run.taskId && cp.run.state == Running && cycle.attempt.None?
    case ThenThrow => cp.run.state == Paused && AttemptOnly(cycle, cp.run.taskId)
    case ThenSubmit(t) => t == cp.run.taskId && cp.run.state == CompletedPendingSync && AttemptOnly(cycle, t)
    case ThenFinish => cp.run.state == Synced && AttemptOnly(cycle, cp.run.taskId)
  }

  ghost predicate PhaseInv(c: Client) {
    match c.phase
    case Idle => true
    case Opening(cycle) => cycle.attempt.None?
    case Restoring(cycle, offer) => cycle.attempt.None? && (offer.Some? ==> offer.value.lease.deviceId == c.deviceId)
    case Polling(cycle, restored) => cycle.attempt.None? && (restored.Some? ==> JournalAhead(c.table, c.deviceId, restored.value, cycle.now))
    case Saving(cycle, j, cp, next) =>
      && JournalAhead(c.table, c.deviceId, j, cycle.now)
      && cp.run.taskId in j.runs && j.runs[cp.run.taskId] == cp
      && SavingInv(cycle, cp, next)
    case Acknowledging(cycle, j, lease) =>
      JournalAhead(c.table, c.deviceId, j, cycle.now) && InStep(c.table, j, lease.taskId) && cycle.attempt.None?
    case Executing(cycle, j, t) =>
      JournalAhead(c.table, c.deviceId, j, cycle.now) && InStep(c.table, j, t) && j.runs[t].run.state == Running && AttemptOnly(cycle, t)
    case Submitting(cycle, j, t, sent) =>
      JournalAhead(c.table, c.deviceId, j, cycle.now) && InStep(c.table, j, t) && j.runs[t].run.state == CompletedPendingSync && AttemptOnly(cycle, t)
  }

  ghost predicate HasResult(table: Table, t: Id) {
    t in table && table[t].run.result.Some?
  }

  function TasksOf(invocations: seq<Invocation>): seq<Id> {
    seq(|invocations|, i requires 0 <= i < |invocations| => invocations[i].taskId)
  }

  /** How often a task's executor was invoked. */
  function Invocations(h: History, t: Id): nat {
    multiset(TasksOf(h.invocations))[t]
  }

  /** How many cycles invoked a task's executor and then ended early. */
  function LostAttempts(h: History, t: Id): nat {
    multiset(h.lost)[t]
  }

  ghost predicate HistoryInv(table: Table, h: History, attempt: Option<Id>) {
    && (forall i | 0 <= i < |h.invocations| :: var v := h.invocations[i];
          v.taskId in table && table[v.taskId].run.executorId == v.executorId && table[v.taskId].run.plan == v.plan)
    && (forall r | r in h.submissions :: r.taskId in table && table[r.taskId].run.result == Some(r))
    && (forall t :: Invocations(h, t) <= LostAttempts(h, t) + if attempt == Some(t) || HasResult(table, t) then 1 else 0)
    && |h.lost| <= h.aborted
  }

  function AttemptOf(phase: Phase): Option<Id> {
    if phase.Idle? then None else phase.cycle.attempt
  }

  ghost predicate ClientInv(c: Client) {
    TableInv(c.table, c.deviceId) && PhaseInv(c) && HistoryInv(c.table, c.history, AttemptOf(c.phase))
  }

  // ---- Small steps ----

  lemma InitialInv(c: Client)
    requires Initial(c)
    ensures ClientInv(c)
  {
  }

  lemma ExtendsTransitive(a: Checkpoint, b: Checkpoint, c: Checkpoint)
    requires Extends(a, b) && Extends(b, c)
    ensures Extends(a, c)
  {
  }

  /** Calls on the journal keep it ahead of the table. */
  lemma CallStaysAhead(table: Table, deviceId: Id, j: Journal, call: JournalCall, now: Millis)
    requires JournalAhead(table, deviceId, j, now)
    requires call.CallAcceptLease? ==> call.lease.deviceId == deviceId
    ensures JournalAhead(table, deviceId, Call(j, call, now).0, now)
  {
    CallKeepsInvariant(j, call, now);
    var next := Call(j, call, now).0;
    forall id | id in next.runs ensures next.runs[id].run.deviceId == deviceId && Current(next.runs[id], now) {
      CallMovesAlongEdges(j, call, now, id);
      if id in j.runs {
        assert Extends(j.runs[id], next.runs[id]);
      } else {
        NewRunIsCurrent(j, call, now, id);
      }
    }
    forall id | id in table ensures id in next.runs && Extends(table[id], next.runs[id]) {
      ExtendsTransitive(table[id], j.runs[id], next.runs[id]);
    }
  }

  lemma NewRunIsCurrent(j: Journal, call: JournalCall, now: Millis, id: Id)
    requires JournalInv(j) && id !in j.runs && id in Call(j, call, now).0.runs
    ensures call.CallAcceptLease?
    ensures var run := Call(j, call, now).0.runs[id].run; run.deviceId == call.lease.deviceId && PlanValid(run.plan, now)
  {
  }

  lemma RestoreIsAhead(table: Table, deviceId: Id, rows: seq<Checkpoint>, now: Millis)
    requires TableInv(table, deviceId) && Enumerates(rows, table) && Restore(rows, now).Ok?
    ensures JournalAhead(table, deviceId, Restore(rows, now).value, now)
  {
    RestoreOfTable(table, deviceId, rows, now);
    forall id | id in table ensures Extends(table[id], Restored(table[id], now)) {
      RestoredIsWellSealed(table[id], now);
    }
  }

  lemma AheadIsKeyed(table: Table, deviceId: Id, j: Journal, now: Millis)
    requires JournalAhead(table, deviceId, j, now)
    ensures Keyed(j) && JournalInv(j)
  {
  }

  lemma PendingHasResult(table: Table, deviceId: Id, t: Id)
    requires TableInv(table, deviceId) && t in table && table[t].run.state == CompletedPendingSync
    ensures HasResult(table, t) && table[t].run.result.value.taskId == t
  {
    assert WellSealed(table[t]);
  }

  lemma AbortedInv(c: Client, cycle: Cycle)
    requires TableInv(c.table, c.deviceId) && HistoryInv(c.table, c.history, cycle.attempt)
    ensures ClientInv(Aborted(c, cycle))
  {
    var h := c.history;
    if cycle.attempt.Some? {
      var h' := Aborted(c, cycle).history;
      forall t ensures LostAttempts(h', t) == LostAttempts(h, t) + if cycle.attempt == Some(t) then 1 else 0 {
        assert multiset(h.lost + [cycle.attempt.value]) == multiset(h.lost) + multiset{cycle.attempt.value};
      }
      forall t ensures Invocations(h', t) <= LostAttempts(h', t) + if HasResult(c.table, t) then 1 else 0 {
      }
    }
  }

  /** What the segments between awaits rely on and give back. */
  ghost predicate SegmentPre(c: Client, cycle: Cycle, j: Journal) {
    && TableInv(c.table, c.deviceId)
    && HistoryInv(c.table, c.history, cycle.attempt)
    && JournalAhead(c.table, c.deviceId, j, cycle.now)
  }

  /** A segment that ends in a journal call either aborts or goes on to save what the call returned. */
  lemma CallThenSave(c: Client, cycle: Cycle, j: Journal, call: JournalCall, next: AfterSave)
    requires SegmentPre(c, cycle, j)
    requires call.CallAcceptLease? ==> call.lease.deviceId == c.deviceId
    requires var r := Call(j, call, cycle.now).1; r.Ok? ==> SavingInv(cycle, r.value, next)
    ensures var (j', r) := Call(j, call, cycle.now);
            ClientInv(if r.Err? then Aborted(c, cycle) else c.(phase := Saving(cycle, j', r.value, next)))
  {
    hide WellSealed, JournalAhead, TableInv, HistoryInv, Call, SavingInv;
    AheadIsKeyed(c.table, c.deviceId, j, cycle.now);
    CallStaysAhead(c.table, c.deviceId, j, call, cycle.now);
    CallKeepsInvariant(j, call, cycle.now);
    AbortedInv(c, cycle);
  }

  lemma AcceptedCheckpoint(j: Journal, lease: Lease, executorId: Id, now: Millis)
    requires Keyed(j)
    ensures var r := AcceptLease(j, lease, executorId, now).1; r.Ok? ==> r.value.run.taskId == lease.taskId
  {
  }

  lemma AcceptOfferInv(c: Client, cycle: Cycle, j: Journal, offer: Offer)
    requires SegmentPre(c, cycle, j) && cycle.attempt.None? && offer.lease.deviceId == c.deviceId
    ensures ClientInv(AcceptOffer(c, cycle, j, offer))
  {
    AcceptedCheckpoint(j, offer.lease, offer.executorId, cycle.now);
    CallThenSave(c, cycle, j, CallAcceptLease(offer.lease, offer.executorId), ThenAcknowledge(offer.lease));
  }

  /** What a transition returns. */
  lemma TransitionCheckpoint(j: Journal, taskId: Id, from: set<RunState>, to: RunState, now: Millis)
    requires Keyed(j)
    ensures var r := Transition(j, taskId, from, to, now).1;
            && (r.Ok? <==> taskId in j.runs && j.runs[taskId].run.state in from)
            && (r.Ok? ==> r.value.run.taskId == taskId && r.value.run.state == to)
  {
  }

  lemma SubmitInv(c: Client, cycle: Cycle, j: Journal, taskId: Id)
    requires SegmentPre(c, cycle, j) && AttemptOnly(cycle, taskId)
    requires taskId in j.runs && j.runs[taskId].run.state == CompletedPendingSync ==> InStep(c.table, j, taskId)
    ensures ClientInv(Submit(c, cycle, j, taskId))
  {
    AbortedInv(c, cycle);
  }

  lemma ResumeInv(c: Client, cycle: Cycle, j: Journal, taskId: Id)
    requires SegmentPre(c, cycle, j) && cycle.attempt.None?
    requires taskId in j.runs && j.runs[taskId].run.state == CompletedPendingSync ==> InStep(c.table, j, taskId)
    ensures ClientInv(Resume(c, cycle, j, taskId))
  {
    hide WellSealed, TableInv, HistoryInv, Submit;
    AbortedInv(c, cycle);
    SubmitInv(c, cycle, j, taskId);
    TransitionCheckpoint(j, taskId, {Accepted, Paused}, Running, cycle.now);
    CallThenSave(c, cycle, j, CallBegin(taskId), ThenExecute(taskId));
  }

  lemma PauseRunInv(c: Client, cycle: Cycle, j: Journal, taskId: Id)
    requires SegmentPre(c, cycle, j) && AttemptOnly(cycle, taskId)
    ensures ClientInv(PauseRun(c, cycle, j, taskId))
    ensures taskId in j.runs && j.runs[taskId].run.state == Running ==> PauseRun(c, cycle, j, taskId).phase.Saving?
  {
    TransitionCheckpoint(j, taskId, {Running}, Paused, cycle.now);
    CallThenSave(c, cycle, j, CallPause(taskId), ThenThrow);
  }

  lemma AfterRestoreInv(c: Client, cycle: Cycle, rows: seq<Checkpoint>, offer: Option<Offer>)
    requires TableInv(c.table, c.deviceId) && HistoryInv(c.table, c.history, cycle.attempt) && cycle.attempt.None?
    requires Enumerates(rows, c.table) && Restore(rows, cycle.now).Ok?
    requires offer.Some? ==> offer.value.lease.deviceId == c.deviceId
    ensures ClientInv(AfterRestore(c, cycle, Restore(rows, cycle.now).value, offer))
  {
    var j := Restore(rows, cycle.now).value;
    RestoreIsAhead(c.table, c.deviceId, rows, cycle.now);
    if offer.Some? {
      AcceptOfferInv(c, cycle, j, offer.value);
    } else {
      var unfinished := FirstIn(j.order, j.runs, UNFINISHED);
      if unfinished.Some? {
        RestoreOfTable(c.table, c.deviceId, rows, cycle.now);
        ResumeInv(c, cycle, j, unfinished.value);
      }
    }
  }

  // ---- Saves ----

  /** Every save either cycle makes is accepted, as long as the revision counter is an exact integer. */
  lemma EverySaveIsAccepted(c: Client)
    requires ClientInv(c) && c.phase.Saving?
    ensures SaveRunCheckpoint(c.table, c.deviceId, c.phase.cp, c.phase.cycle.now).1.Ok? <==> c.phase.cp.run.revision <= MAX_SAFE_INTEGER
    ensures c.phase.cp.run.taskId in c.table ==>
            Extends(c.table[c.phase.cp.run.taskId], c.phase.cp)
  {
    SaveOfContinuation(c.table, c.deviceId, c.phase.cp, c.phase.cycle.now);
  }

  lemma HistoryKeptBySave(table: Table, table': Table, h: History, attempt: Option<Id>)
    requires HistoryInv(table, h, attempt) && TableExtends(table, table')
    ensures HistoryInv(table', h, attempt)
  {
  }

  lemma SavedStaysAhead(c: Client, cycle: Cycle, j: Journal, cp: Checkpoint)
    requires SegmentPre(c, cycle, j)
    requires cp.run.taskId in j.runs && j.runs[cp.run.taskId] == cp
    ensures var (table, r) := SaveRunCheckpoint(c.table, c.deviceId, cp, cycle.now);
            && SegmentPre(c.(table := table), cycle, j) && TableExtends(c.table, table)
            && (r.Ok? ==> InStep(table, j, cp.run.taskId))
  {
    SaveOfContinuation(c.table, c.deviceId, cp, cycle.now);
    var table := SaveRunCheckpoint(c.table, c.deviceId, cp, cycle.now).0;
    HistoryKeptBySave(c.table, table, c.history, cycle.attempt);
  }

  lemma AttemptSettled(table: Table, h: History, attempt: Option<Id>)
    requires HistoryInv(table, h, attempt) && (attempt.Some? ==> HasResult(table, attempt.value))
    ensures HistoryInv(table, h, None)
  {
  }

  lemma SavingStepInv(c: Client, c': Client)
    requires ClientInv(c) && c.phase.Saving? && Next(c, Saved) == Some(c')
    ensures ClientInv(c') && TableExtends(c.table, c'.table)
  {
    var Saving(cycle, j, cp, next) := c.phase;
    var (table, r) := SaveRunCheckpoint(c.table, c.deviceId, cp, cycle.now);
    SavedStaysAhead(c, cycle, j, cp);
    if r.Err? {
      SaveOfContinuation(c.table, c.deviceId, cp, cycle.now);
      AbortedInv(c, cycle);
    } else {
      AfterSavedInv(c.(table := table), cycle, j, cp, next);
    }
  }

  lemma AfterSavedInv(c: Client, cycle: Cycle, j: Journal, cp: Checkpoint, next: AfterSave)
    requires SegmentPre(c, cycle, j) && InStep(c.table, j, cp.run.taskId) && j.runs[cp.run.taskId] == cp
    requires SavingInv(cycle, cp, next)
    ensures ClientInv(AfterSaved(c, cycle, j, next)) && AfterSaved(c, cycle, j, next).table == c.table
  {
    hide WellSealed, JournalAhead, TableInv, HistoryInv;
    match next
    case ThenAcknowledge(lease) =>
    case ThenAccepted(t) =>
      if cycle.kind == Execute { ResumeInv(c, cycle, j, t); }
    case ThenExecute(t) =>
    case ThenThrow => AbortedInv(c, cycle);
    case ThenSubmit(t) => SubmitInv(c, cycle, j, t);
    case ThenFinish => FinishedInv(c, cycle, j, cp);
  }

  lemma FinishedInv(c: Client, cycle: Cycle, j: Journal, cp: Checkpoint)
    requires SegmentPre(c, cycle, j) && InStep(c.table, j, cp.run.taskId) && j.runs[cp.run.taskId] == cp
    requires SavingInv(cycle, cp, ThenFinish)
    ensures ClientInv(Finished(c))
  {
    assert WellSealed(j.runs[cp.run.taskId]);
    AttemptSettled(c.table, c.history, cycle.attempt);
  }

  // ---- The other steps ----

  /** The executor's answer, whatever it is, leads to a save: the pause after a failure finds the run running. */
  lemma ExecutorAnswerInv(c: Client, cycle: Cycle, j: Journal, t: Id, e: Event)
    requires SegmentPre(c, cycle, j) && AttemptOnly(cycle, t) && cycle.attempt.Some?
    requires t in j.runs && j.runs[t].run.state == Running
    requires e == ExecutorThrew || e.ExecutorReturned?
    ensures StepExecuting(c, cycle, j, t, e).Some?
    ensures var c' := StepExecuting(c, cycle, j, t, e).value; ClientInv(c') && c'.phase.Saving? && c'.table == c.table
  {
    hide WellSealed, JournalAhead, TableInv, HistoryInv;
    PauseRunInv(c, cycle, j, t);
    if e.ExecutorReturned? {
      AheadIsKeyed(c.table, c.deviceId, j, cycle.now);
      CompletedCheckpoint(j, t, e.output, cycle.now);
      CallThenSave(c, cycle, j, CallCompletePendingSync(t, e.output), ThenSubmit(t));
    }
  }

  lemma CompletedCheckpoint(j: Journal, taskId: Id, output: ExecutorOutput, now: Millis)
    requires Keyed(j)
    ensures var r := CompletePendingSync(j, taskId, output, now).1;
            r.Ok? ==> r.value.run.taskId == taskId && r.value.run.state == CompletedPendingSync
  {
  }

  lemma InvocationCounted(table: Table, h: History, v: Invocation)
    requires HistoryInv(table, h, None) && !HasResult(table, v.taskId)
    requires v.taskId in table && table[v.taskId].run.executorId == v.executorId && table[v.taskId].run.plan == v.plan
    ensures HistoryInv(table, h.(invocations := h.invocations + [v]), Some(v.taskId))
  {
    var h' := h.(invocations := h.invocations + [v]);
    var t := v.taskId;
    assert TasksOf(h'.invocations) == TasksOf(h.invocations) + [t];
    forall x ensures Invocations(h', x) == Invocations(h, x) + if x == t then 1 else 0 {
      assert multiset(TasksOf(h.invocations) + [t]) == multiset(TasksOf(h.invocations)) + multiset{t};
    }
    forall x ensures Invocations(h', x) <= LostAttempts(h', x) + if Some(t) == Some(x) || HasResult(table, x) then 1 else 0 {
      assert Invocations(h, x) <= LostAttempts(h, x) + if HasResult(table, x) then 1 else 0;
    }
  }

  lemma InvokedInv(c: Client, cycle: Cycle, j: Journal, t: Id)
    requires SegmentPre(c, cycle, j) && cycle.attempt.None?
    requires InStep(c.table, j, t) && j.runs[t].run.state == Running
    ensures StepExecuting(c, cycle, j, t, ExecutorInvoked).Some?
    ensures var c' := StepExecuting(c, cycle, j, t, ExecutorInvoked).value; ClientInv(c') && c'.table == c.table
  {
    var run := j.runs[t].run;
    assert WellSealed(j.runs[t]);
    InvocationCounted(c.table, c.history, Invocation(t, run.executorId, run.plan));
  }

  lemma SubmittingStepInv(c: Client, cycle: Cycle, j: Journal, t: Id, sent: bool, e: Event)
    requires SegmentPre(c, cycle, j) && AttemptOnly(cycle, t)
    requires InStep(c.table, j, t) && j.runs[t].run.state == CompletedPendingSync
    requires StepSubmitting(c, cycle, j, t, sent, e).Some?
    ensures var c' := StepSubmitting(c, cycle, j, t, sent, e).value; ClientInv(c') && c'.table == c.table
  {
    hide WellSealed, JournalAhead, TableInv, HistoryInv;
    if e.ResultAccepted? {
      AbortedInv(c, cycle);
      AheadIsKeyed(c.table, c.deviceId, j, cycle.now);
      TransitionCheckpoint(j, t, {CompletedPendingSync}, Synced, cycle.now);
      CallThenSave(c, cycle, j, CallMarkSynced(t), ThenFinish);
    } else {
      PendingHasResult(c.table, c.deviceId, t);
      SubmissionRecorded(c.table, c.history, cycle.attempt, t);
    }
  }

  lemma SubmissionRecorded(table: Table, h: History, attempt: Option<Id>, t: Id)
    requires HistoryInv(table, h, attempt) && HasResult(table, t) && table[t].run.result.value.taskId == t
    ensures HistoryInv(table, h.(submissions := h.submissions + [table[t].run.result.value]), attempt)
  {
    var h' := h.(submissions := h.submissions + [table[t].run.result.value]);
    forall x ensures Invocations(h', x) == Invocations(h, x) && LostAttempts(h', x) == LostAttempts(h, x) {
    }
  }

  lemma AcknowledgingStepInv(c: Client, cycle: Cycle, j: Journal, taskId: Id)
    requires SegmentPre(c, cycle, j) && cycle.attempt.None?
    ensures var (next, r) := MarkLeaseAcknowledged(j, taskId, cycle.now);
            ClientInv(if r.Err? then Aborted(c, cycle) else c.(phase := Saving(cycle, next, r.value, ThenAccepted(taskId))))
  {
    TransitionCheckpoint(j, taskId, {Leased}, Accepted, cycle.now);
    CallThenSave(c, cycle, j, CallMarkLeaseAcknowledged(taskId), ThenAccepted(taskId));
  }

  lemma PollingStepInv(c: Client, cycle: Cycle, restored: Option<Journal>, e: Event)
    requires TableInv(c.table, c.deviceId) && HistoryInv(c.table, c.history, None) && cycle.attempt.None?
    requires restored.Some? ==> JournalAhead(c.table, c.deviceId, restored.value, cycle.now)
    requires StepPolling(c, cycle, restored, e).Some?
    ensures var c' := StepPolling(c, cycle, restored, e).value; ClientInv(c') && c'.table == c.table
  {
    hide WellSealed, JournalAhead, TableInv, HistoryInv;
    AbortedInv(c, cycle);
    if e.LeasePolled? && e.lease.deviceId == c.deviceId && restored.Some? {
      AcceptOfferInv(c, cycle, restored.value, Offer(e.lease, e.executorId));
    }
  }

  /** Every step keeps the invariant and loses nothing durable. */
  lemma StepKeepsInvariant(c: Client, e: Event, c': Client)
    requires ClientInv(c) && Step(c, e, c')
    ensures ClientInv(c') && TableExtends(c.table, c'.table)
  {
    hide WellSealed, JournalAhead, TableInv, HistoryInv, Restore, SaveRunCheckpoint, MarkLeaseAcknowledged, StepPolling, StepSubmitting, AfterRestore, AfterSaved, Enumerates;
    if e == Died {
      AbortedInv(c, c.phase.cycle);
    } else {
      match c.phase
      case Idle =>
      case Opening(cycle) =>
      case Restoring(cycle, offer) =>
        AbortedInv(c, cycle);
        if Restore(e.rows, cycle.now).Ok? {
          AfterRestoreInv(c, cycle, e.rows, offer);
          AfterRestoreKeepsTable(c, cycle, Restore(e.rows, cycle.now).value, offer);
        }
      case Polling(cycle, restored) => PollingStepInv(c, cycle, restored, e);
      case Saving(_, _, _, _) => SavingStepInv(c, c');
      case Acknowledging(cycle, j, lease) =>
        AbortedInv(c, cycle);
        AcknowledgingStepInv(c, cycle, j, lease.taskId);
      case Executing(cycle, j, t) =>
        if cycle.attempt.None? { InvokedInv(c, cycle, j, t); } else { ExecutorAnswerInv(c, cycle, j, t, e); }
      case Submitting(cycle, j, t, sent) => SubmittingStepInv(c, cycle, j, t, sent, e);
    }
  }

  lemma AfterRestoreKeepsTable(c: Client, cycle: Cycle, j: Journal, offer: Option<Offer>)
    ensures AfterRestore(c, cycle, j, offer).table == c.table
  {
  }
}
