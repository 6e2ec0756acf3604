/** The local run journal as a value, and what each of its operations does to it. */
module RunJournalSpec {
  import opened Common
  import opened RunTypes

  /** An insertion-ordered map from task to checkpoint. */
  datatype Journal = Journal(order: seq<Id>, runs: map<Id, Checkpoint>)

  const EMPTY := Journal([], map[])

  datatype JournalError =
    | InvalidLease | LeaseExpired | LeaseScopeMismatch | EffectfulPlan | PlanRejected | ExecutorInvalid
    | TaskAlreadyBound | RunUnavailable | WrongState | ResultNotBounded
    | IntegrityFailed | DuplicateCheckpoint | OutsideBoundary | StateInvalid
    | ResultStateInconsistent | ResultInvalid | ContextDrifted

  function Put(j: Journal, cp: Checkpoint): Journal {
    var id := cp.run.taskId;
    Journal(if id in j.runs then j.order else j.order + [id], j.runs[id := cp])
  }

  /** Replaces a run by a patched copy whose revision is one higher. */
  function Replace(j: Journal, run: Run): (Journal, Result<Checkpoint, JournalError>) {
    var next := Seal(run.(revision := run.revision + 1));
    (Put(j, next), Ok(next))
  }

  function LeasedRun(lease: Lease, executorId: Id, now: Millis): Run {
    Run(1, lease.taskId, lease.deviceId, lease.plan, executorId, ContextDigest(lease.plan.envelope),
        Leased, 1, None, true, false, Some(now))
  }

  predicate OnlySpaces(s: string) {
    forall c | c in s :: WhiteSpace(c)
  }

  function LeaseError(lease: Lease, executorId: Id, now: Millis): Option<JournalError> {
    if lease.schemaVersion != 1 || lease.externalWrites || OnlySpaces(lease.taskId) then Some(InvalidLease)
    else if lease.leaseToken == "" || !(1 <= lease.attempt <= MAX_SAFE_INTEGER) || lease.leasedAt.None?
         || (lease.expiresAt.Some? && lease.expiresAt.value <= now) then Some(LeaseExpired)
    else if lease.planId != lease.plan.planId || lease.deviceId != lease.plan.envelope.deviceId then Some(LeaseScopeMismatch)
    else if lease.plan.envelope.allowedEffects != [] || lease.plan.envelope.approvalGrants != [] then Some(EffectfulPlan)
    else if !PlanValid(lease.plan, now) then Some(PlanRejected)
    else if !IsIdentifier(executorId) then Some(ExecutorInvalid)
    else None
  }

  function AcceptLease(j: Journal, lease: Lease, executorId: Id, now: Millis): (Journal, Result<Checkpoint, JournalError>) {
    var error := LeaseError(lease, executorId, now);
    if error.Some? then (j, Err(error.value))
    else if lease.taskId in j.runs then
      var existing := j.runs[lease.taskId];
      if existing.run.plan.planId != lease.planId || existing.run.deviceId != lease.deviceId || existing.run.executorId != executorId
      then (j, Err(TaskAlreadyBound))
      else (j, Ok(existing))
    else
      var cp := Seal(LeasedRun(lease, executorId, now));
      (Put(j, cp), Ok(cp))
  }

  /** The common shape of the transitions: look the run up, check its state, replace it. */
  function Transition(j: Journal, taskId: Id, from: set<RunState>, to: RunState, now: Millis)
    : (Journal, Result<Checkpoint, JournalError>)
  {
    if taskId !in j.runs then (j, Err(RunUnavailable))
    else if j.runs[taskId].run.state !in from then (j, Err(WrongState))
    else Replace(j, j.runs[taskId].run.(state := to, updatedAt := Some(now)))
  }

  function Begin(j: Journal, taskId: Id, now: Millis): (Journal, Result<Checkpoint, JournalError>) {
    Transition(j, taskId, {Accepted, Paused}, Running, now)
  }

  function MarkLeaseAcknowledged(j: Journal, taskId: Id, now: Millis): (Journal, Result<Checkpoint, JournalError>) {
    Transition(j, taskId, {Leased}, Accepted, now)
  }

  function Pause(j: Journal, taskId: Id, now: Millis): (Journal, Result<Checkpoint, JournalError>) {
    Transition(j, taskId, {Running}, Paused, now)
  }

  function ResultFor(run: Run, output: ExecutorOutput, now: Millis): RunResult {
    RunResult(run.taskId, run.deviceId, run.plan.planId, output.outcome, output.summaryCode, output.artifactDigests, Some(now))
  }

  function CompletePendingSync(j: Journal, taskId: Id, output: ExecutorOutput, now: Millis): (Journal, Result<Checkpoint, JournalError>) {
    if taskId !in j.runs then (j, Err(RunUnavailable))
    else if j.runs[taskId].run.state != Running then (j, Err(WrongState))
    else if !PrivacyBounded(output.summaryCode, output.artifactDigests) then (j, Err(ResultNotBounded))
    else
      var run := j.runs[taskId].run;
      Replace(j, run.(state := CompletedPendingSync, updatedAt := Some(now),
                      result := Some(ResultFor(run.(taskId := taskId), output, now))))
  }

  function MarkSynced(j: Journal, taskId: Id, now: Millis): (Journal, Result<Checkpoint, JournalError>) {
    if taskId in j.runs && j.runs[taskId].run.result.None? then (j, Err(WrongState))
    else Transition(j, taskId, {CompletedPendingSync}, Synced, now)
  }

  function ResultForSync(j: Journal, taskId: Id): Result<RunResult, JournalError> {
    if taskId !in j.runs then Err(RunUnavailable)
    else
      var run := j.runs[taskId].run;
      if run.result.None? || !(run.state in {CompletedPendingSync, Synced}) then Err(WrongState) else Ok(run.result.value)
  }

  // ---- Export and restore ----

  ghost predicate Ordered(j: Journal) {
    Distinct(j.order) && forall id :: id in j.order <==> id in j.runs
  }

  function Export(j: Journal): (values: seq<Checkpoint>)
    requires forall id | id in j.order :: id in j.runs
    ensures |values| == |j.order| && forall i :: 0 <= i < |values| ==> values[i] == j.runs[j.order[i]]
  {
    seq(|j.order|, i requires 0 <= i < |j.order| => j.runs[j.order[i]])
  }

  predicate ResultMatches(run: Run) {
    run.result.Some? ==>
      var r := run.result.value;
      r.taskId == run.taskId && r.deviceId == run.deviceId && r.planId == run.plan.planId
      && PrivacyBounded(r.summaryCode, r.artifactDigests) && r.completedAt.Some?
  }

  predicate ExpectsResult(state: RunState) {
    state == CompletedPendingSync || state == Synced
  }

  /** The first check of a stored value that fails, in the order the checks are made. */
  function RestoreError(j: Journal, v: Checkpoint, now: Millis): Option<JournalError> {
    var run := v.run;
    if run.schemaVersion != 1 || run.externalWrites || !run.recordingSink || v.digest != RunDigest(run) then Some(IntegrityFailed)
    else if run.taskId in j.runs then Some(DuplicateCheckpoint)
    else if run.plan.envelope.allowedEffects != [] || run.plan.envelope.approvalGrants != []
         || run.deviceId != run.plan.envelope.deviceId then Some(OutsideBoundary)
    else if run.state.Unrecognised? || !(1 <= run.revision <= MAX_SAFE_INTEGER) || run.updatedAt.None? then Some(StateInvalid)
    else if ExpectsResult(run.state) != run.result.Some? then Some(ResultStateInconsistent)
    else if !ResultMatches(run) then Some(ResultInvalid)
    else if !PlanValid(run.plan, if run.result.Some? then run.plan.issuedAt else now) then Some(PlanRejected)
    else if !IsIdentifier(run.executorId) then Some(ExecutorInvalid)
    else if run.contextDigest != ContextDigest(run.plan.envelope) then Some(ContextDrifted)
    else None
  }

  /** An interrupted run comes back paused, one revision later. */
  function Restored(v: Checkpoint, now: Millis): Checkpoint {
    if v.run.state == Running
    then Seal(v.run.(state := Paused, revision := v.run.revision + 1, updatedAt := Some(now)))
    else v
  }

  function RestoreInto(j: Journal, values: seq<Checkpoint>, now: Millis): Result<Journal, JournalError>
    decreases |values|
  {
    if values == [] then Ok(j)
    else
      var error := RestoreError(j, values[0], now);
      if error.Some? then Err(error.value)
      else RestoreInto(Put(j, Restored(values[0], now)), values[1..], now)
  }

  function Restore(values: seq<Checkpoint>, now: Millis): Result<Journal, JournalError> {
    RestoreInto(EMPTY, values, now)
  }
}
