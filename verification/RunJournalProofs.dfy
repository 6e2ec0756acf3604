/** What every reachable journal keeps, and why its export restores. */
module RunJournalProofs {
  import opened Common
  import opened RunTypes
  import opened RunJournalSpec

  /** Everything `Restore` checks of one checkpoint except the two things that time can change:
      whether an unfinished plan is still valid and whether the revision is still exact. */
  ghost predicate WellSealed(cp: Checkpoint) {
    var run := cp.run;
    && cp.digest == RunDigest(run)
    && run.schemaVersion == 1 && !run.externalWrites && run.recordingSink
    && run.plan.envelope.allowedEffects == [] && run.plan.envelope.approvalGrants == []
    && run.deviceId == run.plan.envelope.deviceId
    && !run.state.Unrecognised? && run.revision >= 1 && run.updatedAt.Some?
    && (ExpectsResult(run.state) <==> run.result.Some?)
    && ResultMatches(run)
    && PlanValid(run.plan, run.plan.issuedAt)
    && IsIdentifier(run.executorId)
    && run.contextDigest == ContextDigest(run.plan.envelope)
  }

  ghost predicate Keyed(j: Journal) {
    Ordered(j) && forall id | id in j.runs :: j.runs[id].run.taskId == id
  }

  ghost predicate JournalInv(j: Journal) {
    Keyed(j) && forall id | id in j.runs :: WellSealed(j.runs[id])
  }

  /** A run that can be restored at `now`: its revision is an exact integer and, unless it is
      finished, its plan is still valid. */
  predicate Resumable(cp: Checkpoint, now: Millis) {
    cp.run.revision <= MAX_SAFE_INTEGER && (cp.run.result.None? ==> PlanValid(cp.run.plan, now))
  }

  // ---- Every operation keeps the invariant ----

  datatype JournalCall =
    | CallAcceptLease(lease: Lease, executorId: Id)
    | CallBegin(taskId: Id)
    | CallMarkLeaseAcknowledged(taskId: Id)
    | CallPause(taskId: Id)
    | CallCompletePendingSync(taskId: Id, output: ExecutorOutput)
    | CallMarkSynced(taskId: Id)

  function Call(j: Journal, call: JournalCall, now: Millis): (Journal, Result<Checkpoint, JournalError>) {
    match call
    case CallAcceptLease(lease, executorId) => AcceptLease(j, lease, executorId, now)
    case CallBegin(id) => Begin(j, id, now)
    case CallMarkLeaseAcknowledged(id) => MarkLeaseAcknowledged(j, id, now)
    case CallPause(id) => Pause(j, id, now)
    case CallCompletePendingSync(id, output) => CompletePendingSync(j, id, output, now)
    case CallMarkSynced(id) => MarkSynced(j, id, now)
  }

  /** `new` continues `old`: same task, plan, device and executor, no result lost or changed, and a
      higher revision unless nothing changed at all. */
  ghost predicate Extends(old_: Checkpoint, new_: Checkpoint) {
    var a, b := old_.run, new_.run;
    && a.taskId == b.taskId && a.plan == b.plan && a.deviceId == b.deviceId && a.executorId == b.executorId
    && a.revision <= b.revision && (a.revision == b.revision ==> old_ == new_)
    && (a.result.Some? ==> b.result == a.result)
  }

  ghost predicate JournalExtends(old_: Journal, new_: Journal) {
    && old_.order <= new_.order
    && forall id | id in old_.runs :: id in new_.runs && Extends(old_.runs[id], new_.runs[id])
  }

  lemma PutKeepsInvariant(j: Journal, cp: Checkpoint)
    requires JournalInv(j) && WellSealed(cp)
    ensures JournalInv(Put(j, cp))
    ensures (cp.run.taskId in j.runs ==> Extends(j.runs[cp.run.taskId], cp)) ==> JournalExtends(j, Put(j, cp))
  {
    hide WellSealed;
  }

  /** The next checkpoint of a stored run. */
  ghost predicate Succeeds(j: Journal, r: (Journal, Result<Checkpoint, JournalError>)) {
    if r.1.Ok? then
      && WellSealed(r.1.value)
      && (r.1.value.run.taskId in j.runs ==> Extends(j.runs[r.1.value.run.taskId], r.1.value))
      && (r.0 == Put(j, r.1.value) || (r.0 == j && r.1.value.run.taskId in j.runs && j.runs[r.1.value.run.taskId] == r.1.value))
    else r.0 == j
  }

  lemma AcceptSucceeds(j: Journal, lease: Lease, executorId: Id, now: Millis)
    requires JournalInv(j)
    ensures Succeeds(j, AcceptLease(j, lease, executorId, now))
  {
    if LeaseError(lease, executorId, now).None? {
      ValidPlanWasValidWhenIssued(lease.plan, now);
    }
  }

  lemma TransitionSucceeds(j: Journal, taskId: Id, from: set<RunState>, to: RunState, now: Millis)
    requires JournalInv(j) && !to.Unrecognised?
    requires forall s | s in from :: ExpectsResult(s) == ExpectsResult(to)
    ensures Succeeds(j, Transition(j, taskId, from, to, now))
  {
  }

  lemma CompleteSucceeds(j: Journal, taskId: Id, output: ExecutorOutput, now: Millis)
    requires JournalInv(j)
    ensures Succeeds(j, CompletePendingSync(j, taskId, output, now))
  {
  }

  lemma CallSucceeds(j: Journal, call: JournalCall, now: Millis)
    requires JournalInv(j)
    ensures Succeeds(j, Call(j, call, now))
  {
    match call
    case CallAcceptLease(lease, executorId) => AcceptSucceeds(j, lease, executorId, now);
    case CallBegin(id) => TransitionSucceeds(j, id, {Accepted, Paused}, Running, now);
    case CallMarkLeaseAcknowledged(id) => TransitionSucceeds(j, id, {Leased}, Accepted, now);
    case CallPause(id) => TransitionSucceeds(j, id, {Running}, Paused, now);
    case CallCompletePendingSync(id, output) => CompleteSucceeds(j, id, output, now);
    case CallMarkSynced(id) => TransitionSucceeds(j, id, {CompletedPendingSync}, Synced, now);
  }

  lemma CallKeepsInvariant(j: Journal, call: JournalCall, now: Millis)
    requires JournalInv(j)
    ensures JournalInv(Call(j, call, now).0)
    ensures JournalExtends(j, Call(j, call, now).0)
    ensures var (next, r) := Call(j, call, now);
            if r.Ok? then r.value.run.taskId in next.runs && next.runs[r.value.run.taskId] == r.value else next == j
  {
    CallSucceeds(j, call, now);
    var (next, r) := Call(j, call, now);
    if r.Ok? {
      PutKeepsInvariant(j, r.value);
    }
  }

  /** A lease that may be taken: well formed, not yet expired, for its own plan and device, without effects, with a valid
      plan and a named executor. An expiry that is not a date never comes. */
  predicate LeaseAcceptable(lease: Lease, executorId: Id, now: Millis) {
    && lease.schemaVersion == 1 && !lease.externalWrites && !OnlySpaces(lease.taskId) && lease.leaseToken != ""
    && 1 <= lease.attempt <= MAX_SAFE_INTEGER && lease.leasedAt.Some?
    && (lease.expiresAt.Some? ==> now < lease.expiresAt.value)
    && lease.planId == lease.plan.planId && lease.deviceId == lease.plan.envelope.deviceId
    && lease.plan.envelope.allowedEffects == [] && lease.plan.envelope.approvalGrants == []
    && lease.plan.authentic && lease.plan.envelope.wellFormed && lease.plan.issuedAt <= now < lease.plan.expiresAt
    && IsIdentifier(executorId)
  }

  predicate BoundTo(run: Run, lease: Lease, executorId: Id) {
    run.plan.planId == lease.planId && run.deviceId == lease.deviceId && run.executorId == executorId
  }

  /** A lease is accepted exactly when it is acceptable and, if its task is known, names the plan, device and executor
      of the run. A new run is that of the lease; otherwise nothing changes. */
  lemma AcceptLeaseMeans(j: Journal, lease: Lease, executorId: Id, now: Millis)
    requires JournalInv(j)
    ensures var (next, r) := AcceptLease(j, lease, executorId, now); var t := lease.taskId;
            && (r.Ok? <==> LeaseAcceptable(lease, executorId, now) && (t in j.runs ==> BoundTo(j.runs[t].run, lease, executorId)))
            && (r.Err? || t in j.runs ==> next == j && (r.Ok? ==> r.value == j.runs[t]))
            && (r.Ok? && t !in j.runs ==> next == Journal(j.order + [t], j.runs[t := r.value]))
            && (r.Ok? && t !in j.runs ==>
                  var run := r.value.run;
                  && run.taskId == t && run.plan == lease.plan && run.deviceId == lease.deviceId && run.executorId == executorId
                  && run.state == Leased && run.revision == 1 && run.result.None? && run.updatedAt == Some(now))
  {
    hide WellSealed, IsIdentifier;
  }

  /** The edges of the run state machine. */
  predicate Edge(from: RunState, to: RunState) {
    || (from == Leased && to == Accepted)
    || (from == Accepted && to == Running)
    || (from == Running && to == Paused)
    || (from == Paused && to == Running)
    || (from == Running && to == CompletedPendingSync)
    || (from == CompletedPendingSync && to == Synced)
  }

  /** Left as it was, or one edge and one revision on at this time; a new run is leased. */
  ghost predicate Moved(j: Journal, next: Journal, now: Millis, id: Id) {
    if id in j.runs then
      id in next.runs && (next.runs[id] == j.runs[id]
        || (Edge(j.runs[id].run.state, next.runs[id].run.state) && next.runs[id].run.revision == j.runs[id].run.revision + 1
            && next.runs[id].run.updatedAt == Some(now)))
    else id in next.runs ==> next.runs[id].run.state == Leased && next.runs[id].run.revision == 1
  }

  lemma TransitionMoves(j: Journal, taskId: Id, from: set<RunState>, to: RunState, now: Millis, id: Id)
    requires Keyed(j)
    requires forall s | s in from :: Edge(s, to)
    ensures Moved(j, Transition(j, taskId, from, to, now).0, now, id)
  {
  }

  /** A call moves at most the task it names, along one edge and one revision; the only new run is
      a leased one at revision 1. */
  lemma CallMovesAlongEdges(j: Journal, call: JournalCall, now: Millis, id: Id)
    requires JournalInv(j)
    ensures Moved(j, Call(j, call, now).0, now, id)
  {
    match call
    case CallAcceptLease(lease, executorId) =>
    case CallBegin(t) => TransitionMoves(j, t, {Accepted, Paused}, Running, now, id);
    case CallMarkLeaseAcknowledged(t) => TransitionMoves(j, t, {Leased}, Accepted, now, id);
    case CallPause(t) => TransitionMoves(j, t, {Running}, Paused, now, id);
    case CallCompletePendingSync(t, output) =>
    case CallMarkSynced(t) => TransitionMoves(j, t, {CompletedPendingSync}, Synced, now, id);
  }

  function RunCalls(j: Journal, calls: seq<(JournalCall, Millis)>): Journal
    decreases |calls|
  {
    if calls == [] then j else RunCalls(Call(j, calls[0].0, calls[0].1).0, calls[1..])
  }

  lemma {:induction false} CallsKeepInvariant(j: Journal, calls: seq<(JournalCall, Millis)>)
    requires JournalInv(j)
    ensures JournalInv(RunCalls(j, calls)) && JournalExtends(j, RunCalls(j, calls))
    decreases |calls|
  {
    if calls != [] {
      CallKeepsInvariant(j, calls[0].0, calls[0].1);
      CallsKeepInvariant(Call(j, calls[0].0, calls[0].1).0, calls[1..]);
    }
  }

  // ---- Restore ----

  ghost predicate Restorable(cp: Checkpoint, now: Millis) {
    RestoreError(EMPTY, cp, now).None?
  }

  lemma RestorableIffWellSealedAndResumable(cp: Checkpoint, now: Millis)
    ensures Restorable(cp, now) <==> WellSealed(cp) && Resumable(cp, now)
  {
    if PlanValid(cp.run.plan, now) {
      ValidPlanWasValidWhenIssued(cp.run.plan, now);
    }
  }

  ghost predicate DistinctTasks(values: seq<Checkpoint>) {
    forall i, k :: 0 <= i < k < |values| ==> values[i].run.taskId != values[k].run.taskId
  }

  ghost predicate Admissible(j: Journal, v: Checkpoint, now: Millis) {
    v.run.taskId !in j.runs && WellSealed(v) && Resumable(v, now)
  }

  ghost predicate AllAdmissible(j: Journal, values: seq<Checkpoint>, now: Millis) {
    DistinctTasks(values) && forall i | 0 <= i < |values| :: Admissible(j, values[i], now)
  }

  /** `r` is `j` followed by the given values, interrupted runs paused, in the order given. */
  ghost predicate RestoredAfter(j: Journal, values: seq<Checkpoint>, now: Millis, r: Journal) {
    && Keyed(r)
    && |r.order| == |j.order| + |values| && j.order <= r.order
    && (forall i | 0 <= i < |values| :: r.order[|j.order| + i] == values[i].run.taskId)
    && (forall i | 0 <= i < |values| :: values[i].run.taskId in r.runs && r.runs[values[i].run.taskId] == Restored(values[i], now))
    && (forall id | id in j.runs :: id in r.runs && r.runs[id] == j.runs[id])
  }

  lemma AdmissibleStep(j: Journal, v: Checkpoint, rest: seq<Checkpoint>, now: Millis)
    ensures AllAdmissible(j, [v] + rest, now) <==> Admissible(j, v, now) && AllAdmissible(Put(j, Restored(v, now)), rest, now)
  {
    var values := [v] + rest;
    var next := Put(j, Restored(v, now));
    if AllAdmissible(j, values, now) {
      assert Admissible(j, values[0], now);
      forall i | 0 <= i < |rest| ensures Admissible(next, rest[i], now) {
        assert values[i + 1] == rest[i];
      }
      assert forall i :: 0 <= i < |rest| ==> values[i + 1] == rest[i];
    }
    if Admissible(j, v, now) && AllAdmissible(next, rest, now) {
      forall i | 0 <= i < |values| ensures Admissible(j, values[i], now) {
        if i > 0 { assert values[i] == rest[i - 1]; }
      }
      forall i, k | 0 <= i < k < |values| ensures values[i].run.taskId != values[k].run.taskId {
        assert values[k] == rest[k - 1];
        assert Admissible(next, rest[k - 1], now);
      }
    }
  }

  lemma RestoredStep(j: Journal, v: Checkpoint, rest: seq<Checkpoint>, now: Millis, r: Journal)
    requires v.run.taskId !in j.runs
    requires RestoredAfter(Put(j, Restored(v, now)), rest, now, r)
    ensures RestoredAfter(j, [v] + rest, now, r)
  {
    var values := [v] + rest;
    var next := Put(j, Restored(v, now));
    assert v.run.taskId in next.runs;
    forall i | 0 <= i < |values|
      ensures r.order[|j.order| + i] == values[i].run.taskId
      ensures values[i].run.taskId in r.runs && r.runs[values[i].run.taskId] == Restored(values[i], now)
    {
      if i > 0 {
        assert values[i] == rest[i - 1];
        assert r.order[|next.order| + (i - 1)] == rest[i - 1].run.taskId;
      } else {
        assert next.order[|j.order|] == v.run.taskId;
      }
    }
  }

  lemma RestoredIsWellSealed(v: Checkpoint, now: Millis)
    requires WellSealed(v)
    ensures WellSealed(Restored(v, now)) && Extends(v, Restored(v, now)) && Restored(v, now).run.state != Running
  {
  }

  /** `Restore` accepts exactly the lists of distinct, well-sealed, resumable checkpoints, and then
      the journal it builds holds each of them. */
  lemma {:induction false} RestoreIntoSpec(j: Journal, values: seq<Checkpoint>, now: Millis)
    requires JournalInv(j)
    ensures RestoreInto(j, values, now).Ok? <==> AllAdmissible(j, values, now)
    ensures RestoreInto(j, values, now).Ok? ==>
            var r := RestoreInto(j, values, now).value; JournalInv(r) && RestoredAfter(j, values, now, r)
    decreases |values|
  {
    if values != [] {
      var v := values[0];
      assert values == [v] + values[1..];
      AdmissibleStep(j, v, values[1..], now);
      RestorableIffWellSealedAndResumable(v, now);
      RestoreErrorIffAdmissible(j, v, now);
      if Admissible(j, v, now) {
        RestoredIsWellSealed(v, now);
        PutKeepsInvariant(j, Restored(v, now));
        var next := Put(j, Restored(v, now));
        RestoreIntoSpec(next, values[1..], now);
        if RestoreInto(next, values[1..], now).Ok? {
          RestoredStep(j, v, values[1..], now, RestoreInto(next, values[1..], now).value);
        }
      }
    }
  }

  lemma RestoreErrorIffAdmissible(j: Journal, v: Checkpoint, now: Millis)
    ensures RestoreError(j, v, now).None? <==> Admissible(j, v, now)
  {
    RestorableIffWellSealedAndResumable(v, now);
  }

  lemma RestoreSpec(values: seq<Checkpoint>, now: Millis)
    ensures Restore(values, now).Ok? <==>
            DistinctTasks(values) && forall i | 0 <= i < |values| :: WellSealed(values[i]) && Resumable(values[i], now)
    ensures Restore(values, now).Ok? ==>
            var r := Restore(values, now).value; JournalInv(r) && RestoredAfter(EMPTY, values, now, r)
  {
    RestoreIntoSpec(EMPTY, values, now);
    assert forall i | 0 <= i < |values| :: Admissible(EMPTY, values[i], now) <==> WellSealed(values[i]) && Resumable(values[i], now);
  }

  /** What a journal looks like after its process died and its export was restored at `now`. */
  function Interrupted(j: Journal, now: Millis): Journal {
    Journal(j.order, map id | id in j.runs :: Restored(j.runs[id], now))
  }

  lemma ExportIsAdmissible(j: Journal, now: Millis)
    requires JournalInv(j)
    ensures DistinctTasks(Export(j))
    ensures forall i | 0 <= i < |j.order| :: WellSealed(Export(j)[i])
    ensures (forall i | 0 <= i < |j.order| :: Resumable(Export(j)[i], now)) <==> (forall id | id in j.runs :: Resumable(j.runs[id], now))
  {
    var values := Export(j);
    forall i | 0 <= i < |j.order| ensures values[i] == j.runs[j.order[i]] && WellSealed(values[i]) && values[i].run.taskId == j.order[i] {
      assert j.order[i] in j.runs;
    }
    if forall i | 0 <= i < |j.order| :: Resumable(values[i], now) {
      forall id | id in j.runs ensures Resumable(j.runs[id], now) {
        var i :| 0 <= i < |j.order| && j.order[i] == id;
        assert Resumable(values[i], now);
      }
    }
  }

  lemma RestoredAt(j: Journal, now: Millis, r: Journal, i: nat)
    requires Keyed(j) && i < |j.order| && RestoredAfter(EMPTY, Export(j), now, r)
    ensures j.order[i] in j.runs && r.order[i] == j.order[i]
    ensures j.order[i] in r.runs && r.runs[j.order[i]] == Restored(j.runs[j.order[i]], now)
  {
    var values := Export(j);
    assert values[i] == j.runs[j.order[i]];
    assert r.order[|EMPTY.order| + i] == values[i].run.taskId;
  }

  lemma RestoredLength(j: Journal, now: Millis, r: Journal)
    requires Keyed(j) && RestoredAfter(EMPTY, Export(j), now, r)
    ensures |r.order| == |j.order| && Keyed(r)
  {
  }

  lemma SameOrderSameRuns(j: Journal, now: Millis, r: Journal)
    requires Ordered(j) && Ordered(r) && r.order == j.order
    requires forall id | id in j.order :: r.runs[id] == Restored(j.runs[id], now)
    ensures r == Interrupted(j, now)
  {
    assert forall id :: id in j.runs <==> id in r.runs;
  }

  lemma RestoredAfterExport(j: Journal, now: Millis, r: Journal)
    requires Keyed(j) && RestoredAfter(EMPTY, Export(j), now, r)
    ensures r == Interrupted(j, now)
  {
    hide RestoredAfter, Restored, Interrupted;
    assert |r.order| == |j.order| && Keyed(r) by { RestoredLength(j, now, r); }
    forall i | 0 <= i < |j.order|
      ensures r.order[i] == j.order[i] && j.order[i] in r.runs && r.runs[j.order[i]] == Restored(j.runs[j.order[i]], now)
    {
      RestoredAt(j, now, r, i);
    }
    assert r.order == j.order;
    SameOrderSameRuns(j, now, r);
  }

  /** The export of a journal restores exactly when each run is resumable, and the result differs
      from the journal only in its interrupted runs, which come back paused one revision later. */
  lemma RestoreOfExport(j: Journal, now: Millis)
    requires JournalInv(j)
    ensures Restore(Export(j), now).Ok? <==> forall id | id in j.runs :: Resumable(j.runs[id], now)
    ensures Restore(Export(j), now).Ok? ==> Restore(Export(j), now).value == Interrupted(j, now)
    ensures forall id :: id in j.runs ==>
      var a, b := j.runs[id].run, Interrupted(j, now).runs[id].run;
      if a.state == Running then b.state == Paused && b.revision == a.revision + 1 && b.updatedAt == Some(now) && b.result == a.result
      else b == a
  {
    RestoreSpec(Export(j), now);
    ExportIsAdmissible(j, now);
    if Restore(Export(j), now).Ok? {
      RestoredAfterExport(j, now, Restore(Export(j), now).value);
    }
  }

  /** Whatever was called on a fresh or restored journal, its export restores while its unfinished
      plans are valid; a journal of finished runs restores however late. */
  lemma ReachableJournalsRestore(start: Journal, calls: seq<(JournalCall, Millis)>, now: Millis)
    requires JournalInv(start)
    ensures var j := RunCalls(start, calls);
            JournalInv(j)
            && (Restore(Export(j), now).Ok? <==> forall id | id in j.runs :: Resumable(j.runs[id], now))
            && (Restore(Export(j), now).Ok? ==> Restore(Export(j), now).value == Interrupted(j, now))
  {
    CallsKeepInvariant(start, calls);
    RestoreOfExport(RunCalls(start, calls), now);
  }
}
