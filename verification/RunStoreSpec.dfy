/** The client's durable checkpoint table: when a save is accepted and what a restore reads. */
module RunStoreSpec {
  import opened Common
  import opened RunTypes
  import opened RunJournalSpec
  import opened RunJournalProofs

  /** One row a task. The revision and digest columns repeat what the stored checkpoint holds. */
  type Table = map<Id, Checkpoint>

  datatype StoreError = OtherDevice | CheckpointRejected(cause: JournalError) | RevisionNotAdvancing

  function SaveRunCheckpoint(table: Table, deviceId: Id, cp: Checkpoint, now: Millis): (Table, Result<Checkpoint, StoreError>) {
    var checked := Restore([cp], now);
    if cp.run.deviceId != deviceId then (table, Err(OtherDevice))
    else if checked.Err? then (table, Err(CheckpointRejected(checked.error)))
    else if cp.run.taskId in table && table[cp.run.taskId].run.revision == cp.run.revision
         && table[cp.run.taskId].digest == cp.digest then (table, Ok(cp))
    else if cp.run.taskId in table && table[cp.run.taskId].run.revision >= cp.run.revision then (table, Err(RevisionNotAdvancing))
    else (table[cp.run.taskId := cp], Ok(cp))
  }

  /** `rows` lists every row of the table once, in whatever order the query returns them. */
  ghost predicate Enumerates(rows: seq<Checkpoint>, table: Table) {
    && DistinctTasks(rows)
    && (forall i | 0 <= i < |rows| :: rows[i].run.taskId in table && table[rows[i].run.taskId] == rows[i])
    && (forall id | id in table :: exists i :: 0 <= i < |rows| && rows[i].run.taskId == id)
  }

  ghost predicate TableInv(table: Table, deviceId: Id) {
    forall id | id in table :: table[id].run.taskId == id && table[id].run.deviceId == deviceId && WellSealed(table[id])
  }

  /** Nothing durable is lost: every stored run is still there, continued, with its result if it had one. */
  ghost predicate TableExtends(old_: Table, new_: Table) {
    forall id | id in old_ :: id in new_ && Extends(old_[id], new_[id])
  }

  /** A checkpoint that continues its row is saved exactly when it is resumable; no accepted save
      loses anything. */
  lemma SaveOfContinuation(table: Table, deviceId: Id, cp: Checkpoint, now: Millis)
    requires TableInv(table, deviceId)
    requires WellSealed(cp) && cp.run.deviceId == deviceId
    requires cp.run.taskId in table ==> Extends(table[cp.run.taskId], cp)
    ensures var (next, r) := SaveRunCheckpoint(table, deviceId, cp, now);
            && (r.Ok? <==> Resumable(cp, now))
            && next == (if r.Ok? then table[cp.run.taskId := cp] else table)
            && TableInv(next, deviceId) && TableExtends(table, next)
  {
    hide WellSealed;
    RestoreSpec([cp], now);
    assert [cp][0] == cp;
  }

  /** Any checkpoint, wherever it comes from, is saved exactly when it is of this device, sealed, resumable, and newer
      than its row or the row itself; so no row ever goes back. */
  lemma SaveMeans(table: Table, deviceId: Id, cp: Checkpoint, now: Millis)
    requires TableInv(table, deviceId)
    ensures var (next, r) := SaveRunCheckpoint(table, deviceId, cp, now); var t := cp.run.taskId;
            && (r.Ok? <==> && cp.run.deviceId == deviceId && WellSealed(cp) && Resumable(cp, now)
                           && (t in table ==> table[t].run.revision < cp.run.revision || table[t] == cp))
            && next == (if r.Ok? then table[t := cp] else table) && (r.Ok? ==> r.value == cp)
            && TableInv(next, deviceId)
  {
    RestoreSpec([cp], now);
    assert [cp][0] == cp;
    if cp.run.taskId in table { assert WellSealed(table[cp.run.taskId]); }
  }

  /** Restoring a table gives one run per row, interrupted runs paused, exactly when every row is
      resumable at that time. */
  lemma RestoreOfTable(table: Table, deviceId: Id, rows: seq<Checkpoint>, now: Millis)
    requires TableInv(table, deviceId) && Enumerates(rows, table)
    ensures Restore(rows, now).Ok? <==> forall id | id in table :: Resumable(table[id], now)
    ensures Restore(rows, now).Ok? ==>
            var j := Restore(rows, now).value;
            JournalInv(j) && j.runs == (map id | id in table :: Restored(table[id], now))
  {
    RestoreSpec(rows, now);
    forall id | id in table ensures exists i :: 0 <= i < |rows| && rows[i] == table[id] {
      var i :| 0 <= i < |rows| && rows[i].run.taskId == id;
      assert rows[i] == table[id];
    }
    if Restore(rows, now).Ok? {
      RestoredTable(table, rows, now, Restore(rows, now).value);
    }
  }

  lemma RestoredRow(table: Table, rows: seq<Checkpoint>, now: Millis, j: Journal, id: Id)
    requires Enumerates(rows, table) && RestoredAfter(EMPTY, rows, now, j)
    ensures id in j.runs <==> id in table
    ensures id in table ==> j.runs[id] == Restored(table[id], now)
  {
    if id in table {
      var i :| 0 <= i < |rows| && rows[i].run.taskId == id;
      assert table[id] == rows[i];
    }
    if id in j.runs {
      var i :| 0 <= i < |j.order| && j.order[i] == id;
      assert j.order[|EMPTY.order| + i] == rows[i].run.taskId;
    }
  }

  lemma RestoredTable(table: Table, rows: seq<Checkpoint>, now: Millis, j: Journal)
    requires Enumerates(rows, table) && RestoredAfter(EMPTY, rows, now, j)
    ensures j.runs == map id | id in table :: Restored(table[id], now)
  {
    hide RestoredAfter, Enumerates, Restored;
    var expected := map id | id in table :: Restored(table[id], now);
    forall id ensures (id in j.runs <==> id in expected) && (id in expected ==> j.runs[id] == expected[id]) {
      RestoredRow(table, rows, now, j, id);
    }
  }
}
