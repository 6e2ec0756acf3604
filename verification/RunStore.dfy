/** The durable checkpoint table as the object the cycles write to. */
module RunStore {
  import opened Common
  import opened RunTypes
  import opened RunJournal
  import JournalSpec = RunJournalSpec
  import Proofs = RunJournalProofs
  import opened RunStoreSpec

  class RunCheckpointStore {
    const deviceId: Id
    var checkpoints: Table

    constructor (deviceId: Id)
      ensures this.deviceId == deviceId && checkpoints == map[]
    {
      this.deviceId := deviceId;
      checkpoints := map[];
    }

    method SaveRunCheckpoint(cp: Checkpoint, now: Millis) returns (r: Result<Checkpoint, StoreError>)
      modifies this
      ensures (checkpoints, r) == RunStoreSpec.SaveRunCheckpoint(old(checkpoints), deviceId, cp, now)
    {
      if cp.run.deviceId != deviceId { return Err(OtherDevice); }
      var _, error := LocalRunJournal.RestoreAll([cp], now);
      if error.Some? { return Err(CheckpointRejected(error.value)); }
      var id := cp.run.taskId;
      if id in checkpoints && checkpoints[id].run.revision == cp.run.revision && checkpoints[id].digest == cp.digest { return Ok(cp); }
      if id in checkpoints && checkpoints[id].run.revision >= cp.run.revision { return Err(RevisionNotAdvancing); }
      checkpoints := checkpoints[id := cp];
      return Ok(cp);
    }

    /** The table's rows, in some order. */
    method Rows() returns (rows: seq<Checkpoint>)
      requires forall id | id in checkpoints :: checkpoints[id].run.taskId == id
      ensures Enumerates(rows, checkpoints)
    {
      rows := [];
      var remaining := checkpoints.Keys;
      while remaining != {}
        invariant remaining <= checkpoints.Keys
        invariant Proofs.DistinctTasks(rows)
        invariant forall i | 0 <= i < |rows| :: rows[i].run.taskId in checkpoints && rows[i].run.taskId !in remaining
                    && checkpoints[rows[i].run.taskId] == rows[i]
        invariant forall id | id in checkpoints :: id in remaining || exists i :: 0 <= i < |rows| && rows[i].run.taskId == id
        decreases |remaining|
      {
        var id :| id in remaining;
        ghost var before := rows;
        rows := rows + [checkpoints[id]];
        remaining := remaining - {id};
        assert rows[|before|].run.taskId == id;
        forall other | other in checkpoints && other !in remaining ensures exists i :: 0 <= i < |rows| && rows[i].run.taskId == other {
          if other != id {
            var i :| 0 <= i < |before| && before[i].run.taskId == other;
            assert rows[i].run.taskId == other;
          }
        }
      }
    }

    method RestoreRunJournal(now: Millis) returns (journal: LocalRunJournal, error: Option<JournalSpec.JournalError>, ghost rows: seq<Checkpoint>)
      requires forall id | id in checkpoints :: checkpoints[id].run.taskId == id
      ensures fresh(journal) && Enumerates(rows, checkpoints)
      ensures JournalSpec.Restore(rows, now) == if error.Some? then Err(error.value) else Ok(journal.View())
    {
      var stored := Rows();
      rows := stored;
      journal, error := LocalRunJournal.RestoreAll(stored, now);
    }
  }
}
