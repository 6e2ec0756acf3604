/** The run journal as the object the client holds in memory while a cycle runs. */
module RunJournal {
  import opened Common
  import opened RunTypes
  import opened RunJournalSpec
  import Spec = RunJournalSpec
  import Proofs = RunJournalProofs

  class LocalRunJournal {
    var order: seq<Id>
    var runs: map<Id, Checkpoint>

    function View(): Journal
      reads this
    {
      Journal(order, runs)
    }

    constructor ()
      ensures View() == EMPTY
    {
      order, runs := [], map[];
    }

    method Store(cp: Checkpoint)
      modifies this
      ensures View() == Put(old(View()), cp)
    {
      if cp.run.taskId !in runs {
        order := order + [cp.run.taskId];
      }
      runs := runs[cp.run.taskId := cp];
    }

    method ReplaceRun(patched: Run) returns (r: Result<Checkpoint, JournalError>)
      modifies this
      ensures (View(), r) == Replace(old(View()), patched)
    {
      var next := Seal(patched.(revision := patched.revision + 1));
      Store(next);
      r := Ok(next);
    }

    method AcceptLease(lease: Lease, executorId: Id, now: Millis) returns (r: Result<Checkpoint, JournalError>)
      modifies this
      ensures (View(), r) == Spec.AcceptLease(old(View()), lease, executorId, now)
    {
      var error := LeaseError(lease, executorId, now);
      if error.Some? { return Err(error.value); }
      if lease.taskId in runs {
        var existing := runs[lease.taskId];
        if existing.run.plan.planId != lease.planId || existing.run.deviceId != lease.deviceId || existing.run.executorId != executorId {
          return Err(TaskAlreadyBound);
        }
        return Ok(existing);
      }
      var cp := Seal(LeasedRun(lease, executorId, now));
      Store(cp);
      return Ok(cp);
    }

    method Begin(taskId: Id, now: Millis) returns (r: Result<Checkpoint, JournalError>)
      modifies this
      ensures (View(), r) == Spec.Begin(old(View()), taskId, now)
    {
      if taskId !in runs { return Err(RunUnavailable); }
      var current := runs[taskId].run;
      if current.state != Accepted && current.state != Paused { return Err(WrongState); }
      r := ReplaceRun(current.(state := Running, updatedAt := Some(now)));
    }

    method MarkLeaseAcknowledged(taskId: Id, now: Millis) returns (r: Result<Checkpoint, JournalError>)
      modifies this
      ensures (View(), r) == Spec.MarkLeaseAcknowledged(old(View()), taskId, now)
    {
      if taskId !in runs { return Err(RunUnavailable); }
      var current := runs[taskId].run;
      if current.state != Leased { return Err(WrongState); }
      r := ReplaceRun(current.(state := Accepted, updatedAt := Some(now)));
    }

    method Pause(taskId: Id, now: Millis) returns (r: Result<Checkpoint, JournalError>)
      modifies this
      ensures (View(), r) == Spec.Pause(old(View()), taskId, now)
    {
      if taskId !in runs { return Err(RunUnavailable); }
      var current := runs[taskId].run;
      if current.state != Running { return Err(WrongState); }
      r := ReplaceRun(current.(state := Paused, updatedAt := Some(now)));
    }

    method CompletePendingSync(taskId: Id, output: ExecutorOutput, now: Millis) returns (r: Result<Checkpoint, JournalError>)
      modifies this
      ensures (View(), r) == Spec.CompletePendingSync(old(View()), taskId, output, now)
    {
      if taskId !in runs { return Err(RunUnavailable); }
      var current := runs[taskId].run;
      if current.state != Running { return Err(WrongState); }
      if !PrivacyBounded(output.summaryCode, output.artifactDigests) { return Err(ResultNotBounded); }
      var result := RunResult(taskId, current.deviceId, current.plan.planId, output.outcome,
                              output.summaryCode, output.artifactDigests, Some(now));
      r := ReplaceRun(current.(state := CompletedPendingSync, result := Some(result), updatedAt := Some(now)));
    }

    method MarkSynced(taskId: Id, now: Millis) returns (r: Result<Checkpoint, JournalError>)
      modifies this
      ensures (View(), r) == Spec.MarkSynced(old(View()), taskId, now)
    {
      if taskId !in runs { return Err(RunUnavailable); }
      var current := runs[taskId].run;
      if current.state != CompletedPendingSync || current.result.None? { return Err(WrongState); }
      r := ReplaceRun(current.(state := Synced, updatedAt := Some(now)));
    }

    /** Rebuilds a journal from stored checkpoints, or reports the first one that fails a check.
        The object returned on failure holds what was restored before the failing value. */
    static method RestoreAll(values: seq<Checkpoint>, now: Millis) returns (journal: LocalRunJournal, error: Option<JournalError>)
      ensures fresh(journal)
      ensures Restore(values, now) == if error.Some? then Err(error.value) else Ok(journal.View())
      ensures error.None? ==> Proofs.JournalInv(journal.View())
    {
      journal := new LocalRunJournal();
      var i := 0;
      while i < |values|
        invariant i <= |values|
        invariant fresh(journal)
        invariant RestoreInto(EMPTY, values, now) == RestoreInto(journal.View(), values[i..], now)
      {
        assert values[i..][1..] == values[i + 1..];
        error := RestoreError(journal.View(), values[i], now);
        if error.Some? { return; }
        journal.Store(Restored(values[i], now));
        i := i + 1;
      }
      error := None;
      Proofs.RestoreSpec(values, now);
    }
  }
}
