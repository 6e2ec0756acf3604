/** What holds over whole runs of the client cycles. */
module ClientRuns {
  import opened Common
  import opened RunTypes
  import opened RunJournalSpec
  import opened RunJournalProofs
  import opened RunStoreSpec
  import opened ClientCycle
  import opened ClientCycleProofs

  lemma TableExtendsTransitive(a: Table, b: Table, c: Table)
    requires TableExtends(a, b) && TableExtends(b, c)
    ensures TableExtends(a, c)
  {
    forall id | id in a ensures id in c && Extends(a[id], c[id]) {
      ExtendsTransitive(a[id], b[id], c[id]);
    }
  }

  lemma TableExtendsItself(a: Table)
    ensures TableExtends(a, a)
  {
  }

  /** Runs that meet join into one, so the traces of successive cycles make up one run of the client. */
  lemma RunsJoin(states: seq<Client>, events: seq<Event>, more: seq<Client>, later: seq<Event>)
    requires IsRun(states, events) && IsRun(more, later) && states[|states| - 1] == more[0]
    ensures IsRun(states + more[1..], events + later)
  {
    hide Step;
    var all, done := states + more[1..], events + later;
    forall i | 0 <= i < |done| ensures Step(all[i], done[i], all[i + 1]) {
      if i < |events| {
        assert Step(states[i], events[i], states[i + 1]);
      } else {
        var k := i - |events|;
        assert Step(more[k], later[k], more[k + 1]);
        assert all[i] == more[k] && all[i + 1] == more[k + 1];
      }
    }
  }

  /** The invariant holds in every state of a run, and the table only ever moves forward. */
  lemma {:induction false} RunInvariant(states: seq<Client>, events: seq<Event>, i: nat, k: nat)
    requires IsRun(states, events) && Initial(states[0])
    requires i <= k < |states|
    ensures ClientInv(states[k]) && TableExtends(states[i].table, states[k].table)
    decreases k
  {
    hide ClientInv, Step, TableExtends, Initial;
    TableExtendsItself(states[k].table);
    if k == 0 {
      InitialInv(states[0]);
    } else {
      RunInvariant(states, events, if i == k then i - 1 else i, k - 1);
      assert Step(states[k - 1], events[k - 1], states[k - 1 + 1]);
      StepKeepsInvariant(states[k - 1], events[k - 1], states[k]);
    }
    if i < k {
      TableExtendsTransitive(states[i].table, states[k - 1].table, states[k].table);
    }
  }

  /** Only the invocation event records an invocation. */
  lemma OtherStepsKeepInvocations(c: Client, e: Event, c': Client)
    requires Next(c, e) == Some(c') && e != ExecutorInvoked
    ensures c'.history.invocations == c.history.invocations
  {
    hide Restore, SaveRunCheckpoint, AcceptLease, Begin, Pause, CompletePendingSync, MarkSynced, MarkLeaseAcknowledged, FirstIn;
  }

  lemma InvokedWithoutResult(c: Client, c': Client)
    requires ClientInv(c) && Next(c, ExecutorInvoked) == Some(c')
    ensures exists v :: c'.history.invocations == c.history.invocations + [v] && !HasResult(c.table, v.taskId)
  {
    hide WellSealed, HistoryInv, TableInv;
    var Executing(cycle, j, t) := c.phase;
    RunningHasNoResult(c.table, c.deviceId, j, cycle.now, t);
    var v := Invocation(t, j.runs[t].run.executorId, j.runs[t].run.plan);
    assert c'.history.invocations == c.history.invocations + [v];
  }

  lemma RunningHasNoResult(table: Table, deviceId: Id, j: Journal, now: Millis, t: Id)
    requires JournalAhead(table, deviceId, j, now) && InStep(table, j, t) && j.runs[t].run.state == Running
    ensures !HasResult(table, t)
  {
    assert WellSealed(j.runs[t]);
  }

  lemma StepInvokesOnlyUnfinished(c: Client, e: Event, c': Client, t: Id)
    requires ClientInv(c) && Step(c, e, c') && HasResult(c.table, t)
    ensures Invocations(c'.history, t) == Invocations(c.history, t)
  {
    hide ClientInv;
    if e != ExecutorInvoked {
      OtherStepsKeepInvocations(c, e, c');
    } else {
      InvokedWithoutResult(c, c');
      var v :| c'.history.invocations == c.history.invocations + [v] && !HasResult(c.table, v.taskId);
      assert TasksOf(c'.history.invocations) == TasksOf(c.history.invocations) + [v.taskId];
      assert multiset(TasksOf(c.history.invocations) + [v.taskId]) == multiset(TasksOf(c.history.invocations)) + multiset{v.taskId};
    }
  }

  /** Once a result is durable it never changes, and its executor is never invoked again. */
  lemma {:induction false} ResultsAreFinal(states: seq<Client>, events: seq<Event>, i: nat, k: nat, t: Id)
    requires IsRun(states, events) && Initial(states[0])
    requires i <= k < |states| && HasResult(states[i].table, t)
    ensures HasResult(states[k].table, t) && states[k].table[t].run.result == states[i].table[t].run.result
    ensures Invocations(states[k].history, t) == Invocations(states[i].history, t)
    decreases k - i
  {
    hide ClientInv, Step, Invocations, Extends;
    RunInvariant(states, events, i, k);
    ResultKept(states[i].table, states[k].table, t);
    if i < k {
      ResultsAreFinal(states, events, i, k - 1, t);
      RunInvariant(states, events, i, k - 1);
      assert Step(states[k - 1], events[k - 1], states[k]);
      StepInvokesOnlyUnfinished(states[k - 1], events[k - 1], states[k], t);
    }
  }

  lemma ResultKept(a: Table, b: Table, t: Id)
    requires TableExtends(a, b) && HasResult(a, t)
    ensures HasResult(b, t) && b[t].run.result == a[t].run.result
  {
  }

  /** In every state of every run: all submissions of a task carry its durable result, all its
      invocations used the executor and plan of its row, and it was invoked at most once more than
      the number of cycles that invoked it and then ended early. */
  lemma SubmissionsAndInvocations(states: seq<Client>, events: seq<Event>, k: nat, t: Id)
    requires IsRun(states, events) && Initial(states[0]) && k < |states|
    ensures var c := states[k];
            && (forall r | r in c.history.submissions && r.taskId == t :: HasResult(c.table, t) && c.table[t].run.result == Some(r))
            && (forall v | v in c.history.invocations && v.taskId == t ::
                  t in c.table && v.executorId == c.table[t].run.executorId && v.plan == c.table[t].run.plan)
            && Invocations(c.history, t) <= 1 + LostAttempts(c.history, t) <= 1 + c.history.aborted
  {
    hide TableInv, PhaseInv, Invocations;
    RunInvariant(states, events, k, k);
    var c := states[k];
    assert HistoryInv(c.table, c.history, AttemptOf(c.phase));
    assert Invocations(c.history, t) <= LostAttempts(c.history, t) + 1;
    LostIsBounded(c.history.lost, t);
  }

  lemma LostIsBounded(lost: seq<Id>, t: Id)
    ensures multiset(lost)[t] <= |lost|
  {
    assert |multiset(lost)| == |lost|;
    assert multiset(lost) - multiset(lost)[t := 0] <= multiset(lost);
    var only := multiset{}[t := multiset(lost)[t]];
    assert only <= multiset(lost);
    assert |multiset(lost)| == |only| + |multiset(lost) - only|;
  }

  // ---- Polling ----

  predicate Done(cp: Checkpoint) {
    cp.run.state == Synced || cp.run.state == RunCancelled
  }

  /** An execution cycle polls only when no run is unfinished: each is leased or done. */
  ghost predicate NothingUnfinished(c: Client) {
    c.phase.Polling? && c.phase.restored.Some? ==>
      && (forall t :: t in c.table ==> t in c.phase.restored.value.runs && c.phase.restored.value.runs[t] == c.table[t])
      && (forall t :: t in c.phase.restored.value.runs ==> t in c.table && (c.table[t].run.state == Leased || Done(c.table[t])))
  }

  lemma RestoredNothingUnfinished(c: Client, rows: seq<Checkpoint>, now: Millis)
    requires TableInv(c.table, c.deviceId) && Enumerates(rows, c.table) && Restore(rows, now).Ok?
    requires FirstIn(Restore(rows, now).value.order, Restore(rows, now).value.runs, UNFINISHED).None?
    ensures var j := Restore(rows, now).value;
            && (forall t :: t in c.table ==> t in j.runs && j.runs[t] == c.table[t])
            && (forall t :: t in j.runs ==> t in c.table && (c.table[t].run.state == Leased || Done(c.table[t])))
  {
    hide Restore, Enumerates;
    RestoreOfTable(c.table, c.deviceId, rows, now);
    var j := Restore(rows, now).value;
    forall t | t in j.runs ensures j.runs[t] == c.table[t] && (c.table[t].run.state == Leased || Done(c.table[t])) {
      assert t in j.order && WellSealed(c.table[t]);
    }
  }

  /** A poll with a restored journal comes right after the restore, when nothing in it is unfinished. */
  lemma PollingComesFromRestore(c: Client, e: Event, c': Client)
    requires Next(c, e) == Some(c') && c'.phase.Polling? && c'.phase.restored.Some?
    ensures c.phase.Restoring? && e.RowsRead? && Restore(e.rows, c.phase.cycle.now) == Ok(c'.phase.restored.value)
    ensures c'.table == c.table && FirstIn(c'.phase.restored.value.order, c'.phase.restored.value.runs, UNFINISHED).None?
  {
    hide Restore, AcceptOffer, Resume, Submit, PauseRun, FirstIn, SaveRunCheckpoint, CompletePendingSync, MarkSynced, MarkLeaseAcknowledged, ResultForSync;
    SegmentsDoNotPoll();
    if c.phase.Saving? {
      var table := SaveRunCheckpoint(c.table, c.deviceId, c.phase.cp, c.phase.cycle.now).0;
      SavedDoesNotPoll(c.(table := table), c.phase.cycle, c.phase.journal, c.phase.next);
    }
  }

  lemma SavedDoesNotPoll(c: Client, cycle: Cycle, j: Journal, next: AfterSave)
    requires c.phase.Saving?
    ensures !AfterSaved(c, cycle, j, next).phase.Polling?
  {
    hide Resume, Submit;
    SegmentsDoNotPoll();
    match next
    case ThenAcknowledge(_) =>
    case ThenAccepted(t) => assert !Resume(c, cycle, j, t).phase.Polling?;
    case ThenExecute(_) =>
    case ThenThrow =>
    case ThenSubmit(t) => assert !Submit(c, cycle, j, t).phase.Polling?;
    case ThenFinish =>
  }

  lemma PollsWhenNothingIsUnfinished(states: seq<Client>, events: seq<Event>, k: nat)
    requires IsRun(states, events) && Initial(states[0]) && k < |states|
    ensures NothingUnfinished(states[k])
  {
    hide ClientInv, Restore, Next, FirstIn, Enumerates;
    if k > 0 && states[k].phase.Polling? && states[k].phase.restored.Some? {
      var c, e := states[k - 1], events[k - 1];
      assert Step(c, e, states[k - 1 + 1]);
      RunInvariant(states, events, k - 1, k - 1);
      InvHasTable(c);
      PollingComesFromRestore(c, e, states[k]);
      RestoredNothingUnfinished(c, e.rows, c.phase.cycle.now);
    }
  }

  lemma InvHasTable(c: Client)
    requires ClientInv(c)
    ensures TableInv(c.table, c.deviceId)
  {
  }

  lemma SegmentsDoNotPoll()
    ensures forall c: Client, cycle, j, offer :: !AcceptOffer(c, cycle, j, offer).phase.Polling?
    ensures forall c: Client, cycle, j, t :: !Resume(c, cycle, j, t).phase.Polling?
    ensures forall c: Client, cycle, j, t :: !Submit(c, cycle, j, t).phase.Polling?
    ensures forall c: Client, cycle, j, t :: !PauseRun(c, cycle, j, t).phase.Polling?
  {
    hide AcceptLease, Begin, Pause, ResultForSync;
  }

  /** The run resumed is the first unfinished one in journal order. */
  lemma {:induction false} FirstInIsFirst(order: seq<Id>, runs: map<Id, Checkpoint>, states: set<RunState>) returns (i: nat)
    requires FirstIn(order, runs, states).Some?
    ensures i < |order| && FirstIn(order, runs, states) == Some(order[i])
    ensures forall k :: 0 <= k < i && order[k] in runs ==> runs[order[k]].run.state !in states
  {
    if order[0] in runs && runs[order[0]].run.state in states {
      i := 0;
    } else {
      var k := FirstInIsFirst(order[1..], runs, states);
      i := k + 1;
    }
  }

  /** In every run an execution cycle that polls nothing ends well if and only if every stored run is done; a run left
      leased ends it with an error. */
  lemma EmptyPollMeansAllDone(states: seq<Client>, events: seq<Event>, k: nat)
    requires IsRun(states, events) && Initial(states[0]) && k < |events|
    requires states[k].phase.Polling? && states[k].phase.restored.Some? && events[k] == NothingPolled
    ensures states[k + 1].history.aborted == states[k].history.aborted <==> forall t :: t in states[k].table ==> Done(states[k].table[t])
  {
    hide ClientInv;
    PollsWhenNothingIsUnfinished(states, events, k);
    RunInvariant(states, events, k, k);
    var c := states[k];
    assert Step(c, events[k], states[k + 1]);
    var j := c.phase.restored.value;
    assert Ordered(j) by { PolledJournalOrdered(c); }
    forall t | t in j.runs ensures t in j.order {}
  }

  lemma PolledJournalOrdered(c: Client)
    requires ClientInv(c) && c.phase.Polling? && c.phase.restored.Some?
    ensures Ordered(c.phase.restored.value)
  {
    hide TableInv, HistoryInv, WellSealed;
  }

  // ---- Saves ----

  /** After any crash history every save is accepted, unless the revision counter has left the exact
      integers; a save continues its row. */
  lemma RunSavesAreAccepted(states: seq<Client>, events: seq<Event>, k: nat)
    requires IsRun(states, events) && Initial(states[0]) && k < |states| && states[k].phase.Saving?
    ensures var c := states[k]; var cp := c.phase.cp;
            && (SaveRunCheckpoint(c.table, c.deviceId, cp, c.phase.cycle.now).1.Ok? <==> cp.run.revision <= MAX_SAFE_INTEGER)
            && (cp.run.taskId in c.table ==> Extends(c.table[cp.run.taskId], cp))
  {
    RunInvariant(states, events, k, k);
    EverySaveIsAccepted(states[k]);
  }

  /** Whatever the executor answers, the run is still running then. An answer within the privacy bound completes it; any
      other, and a failure, pauses it; either is saved before anything else happens. */
  lemma RunPausesAreAccepted(states: seq<Client>, events: seq<Event>, k: nat)
    requires IsRun(states, events) && Initial(states[0]) && k < |events|
    requires states[k].phase.Executing? && events[k] != Died && events[k] != ExecutorInvoked
    ensures states[k + 1].phase.Saving? && states[k + 1].phase.cp.run.taskId == states[k].phase.taskId
    ensures states[k + 1].phase.cp.run.state
         == if events[k].ExecutorReturned? && PrivacyBounded(events[k].output.summaryCode, events[k].output.artifactDigests)
            then CompletedPendingSync else Paused
  {
    hide WellSealed, JournalAhead, TableInv, HistoryInv;
    RunInvariant(states, events, k, k);
    var c, e := states[k], events[k];
    assert Step(c, e, states[k + 1]);
    var Executing(cycle, j, t) := c.phase;
    AheadIsKeyed(c.table, c.deviceId, j, cycle.now);
    ExecutorAnswerInv(c, cycle, j, t, e);
    TransitionCheckpoint(j, t, {Running}, Paused, cycle.now);
    if e.ExecutorReturned? {
      CompletedCheckpoint(j, t, e.output, cycle.now);
    }
  }
}
