/** The device sync coordinator as the in-memory object the server holds. */
module Coordinator {
  import opened Common
  import opened RunTypes
  import opened CoordinatorSpec
  import Spec = CoordinatorSpec
  import Proofs = CoordinatorProofs
  import Results = CoordinatorResults

  class DeviceSyncCoordinator {
    var devices: map<Scope, Device>
    var challenges: map<Id, Challenge>
    var sessions: map<Id, Session>
    var activeByDevice: map<Scope, Id>
    var tasks: seq<Task>
    var taskByKey: map<(Id, string), (Id, Id)>
    var issued: seq<Id>

    ghost function View(): Server
      reads this
    {
      Server(devices, challenges, sessions, activeByDevice, tasks, taskByKey, issued)
    }

    constructor ()
      ensures View() == EMPTY_SERVER
    {
      devices, challenges, sessions, activeByDevice := map[], map[], map[], map[];
      tasks, taskByKey, issued := [], map[], [];
    }

    /** Records the token source's next value, or refuses it. */
    method Draw(value: Id) returns (drawn: bool)
      modifies this`issued
      ensures drawn == old(Drawable(View(), value))
      ensures View() == if drawn then Drawn(old(View()), value) else old(View())
    {
      drawn := TokenShaped(value) && value !in issued;
      if drawn { issued := issued + [value]; }
    }

    method RegisterDevice(device: Device) returns (r: Result<(), ServerError>)
      modifies this
      ensures (View(), r) == Spec.RegisterDevice(old(View()), device)
    {
      if !TestTenant(device.scope.tenantId) || !device.registered { return Err(DeviceRejected); }
      if device.scope in devices && devices[device.scope].publicKey != device.publicKey { return Err(PublicKeyDrifted); }
      devices := devices[device.scope := device];
      return Ok(());
    }

    method IssueChallenge(scope: Scope, now: Millis, ttl: int, idToken: Id, nonceToken: Id) returns (r: Result<Challenge, ServerError>)
      modifies this
      ensures (View(), r) == Spec.IssueChallenge(old(View()), scope, now, ttl, idToken, nonceToken)
    {
      if scope !in devices { return Err(DeviceUnavailable); }
      var device := devices[scope];
      if !TtlValid(ttl) { return Err(TtlInvalid); }
      var drawn := Draw(idToken);
      if !drawn { return Err(TokenInvalidOrReused); }
      drawn := Draw(nonceToken);
      if !drawn { return Err(TokenInvalidOrReused); }
      var challenge := Challenge(idToken, device.scope, nonceToken, now, now + ttl);
      challenges := challenges[idToken := challenge];
      return Ok(challenge);
    }

    /** `openSession` up to its await: it only reads. In a sound state it goes on exactly when the proof answers
        a challenge in time, with that challenge and its registered device. */
    method BeginOpenSession(proof: Proof, now: Millis) returns (r: Result<(Challenge, Device), ServerError>)
      ensures r == Spec.BeginOpen(View(), proof, now)
      ensures Proofs.ServerInv(View()) ==> (r.Ok? <==> Proofs.Answers(View(), proof, now))
      ensures Proofs.ServerInv(View()) && r.Ok? ==>
        && r.value.0.challengeId == proof.challengeId && r.value.0.expiresAt > now
        && r.value.1.scope == r.value.0.scope && r.value.1.scope.deviceId == proof.deviceId && r.value.1.registered
    {
      hide Proofs.ServerInv;
      if Proofs.ServerInv(View()) { Proofs.BeginOpenMeans(View(), proof, now); }
      if proof.schemaVersion != 1 { return Err(ProofUnsupported); }
      if proof.challengeId !in challenges || challenges[proof.challengeId].scope.deviceId != proof.deviceId { return Err(ChallengeUnavailable); }
      var challenge := challenges[proof.challengeId];
      if challenge.expiresAt <= now { return Err(ChallengeExpired); }
      if proof.algorithm != "ed25519" || proof.keyId == "" || proof.signature == "" { return Err(ProofInvalid); }
      if challenge.scope !in devices { return Err(DeviceUnavailable); }
      return Ok((challenge, devices[challenge.scope]));
    }

    /** `openSession` after its await. */
    method FinishOpenSession(challenge: Challenge, device: Device, verified: bool, now: Millis, ttl: int, token: Id)
      returns (r: Result<Session, ServerError>)
      modifies this
      ensures (View(), r) == Spec.FinishOpen(old(View()), challenge, device, verified, now, ttl, token)
    {
      if !verified { return Err(ProofVerificationFailed); }
      if !TtlValid(ttl) { return Err(TtlInvalid); }
      challenges := challenges - {challenge.challengeId};
      if device.scope in activeByDevice {
        var previousId := activeByDevice[device.scope];
        if previousId in sessions {
          sessions := sessions[previousId := sessions[previousId].(state := Superseded)];
        }
      }
      var drawn := Draw(token);
      if !drawn { return Err(TokenInvalidOrReused); }
      var session := Session(token, device.scope, now, now + ttl, Active);
      sessions := sessions[token := session];
      activeByDevice := activeByDevice[device.scope := token];
      return Ok(session);
    }

    method Enqueue(d: Dispatch) returns (r: Result<(), ServerError>)
      modifies this
      ensures (View(), r) == Spec.Enqueue(old(View()), d)
      ensures old(Proofs.ServerInv(View())) ==> (r.Ok? <==> Results.DispatchOk(d) && Results.KeyFits(old(tasks), d))
      ensures old(Proofs.ServerInv(View())) && r.Ok? ==> tasks == if Results.Queued(old(tasks), d) then old(tasks) else old(tasks) + [Task(d, None, 0, false)]
    {
      hide Proofs.ServerInv, Results.KeyFits, Results.Queued;
      if Proofs.ServerInv(View()) { Results.EnqueueMeans(View(), d); }
      var tenant, envelope := d.scope.tenantId, d.plan.envelope;
      if !TestTenant(tenant) || !d.queued { return Err(DispatchRejected); }
      if envelope.allowedEffects != [] || envelope.approvalGrants != [] { return Err(EffectfulDispatch); }
      if envelope.tenantId != tenant || envelope.userId != d.scope.userId || envelope.deviceId != d.scope.deviceId {
        return Err(DispatchScopeMismatch);
      }
      var existing := TaskIndex(tasks, tenant, d.taskId);
      if existing < |tasks| && tasks[existing].dispatch.idempotencyKey != d.idempotencyKey { return Err(TaskKeyConflict); }
      var key := (tenant, d.idempotencyKey);
      if key in taskByKey && taskByKey[key] != (tenant, d.taskId) { return Err(KeyTaskConflict); }
      if existing == |tasks| {
        tasks := tasks + [Task(d, None, 0, false)];
        taskByKey := taskByKey[key := (tenant, d.taskId)];
      }
      return Ok(());
    }

    method RequireActiveSession(sessionId: Id, now: Millis) returns (r: Result<Session, ServerError>)
      modifies this
      ensures (View(), r) == Spec.ActiveSession(old(View()), sessionId, now)
    {
      if sessionId !in sessions || sessions[sessionId].state != Active { return Err(SessionNotActive); }
      var session := sessions[sessionId];
      if session.expiresAt <= now {
        sessions := sessions[sessionId := session.(state := Expired)];
        return Err(SessionExpired);
      }
      if session.scope !in activeByDevice || activeByDevice[session.scope] != sessionId { return Err(SessionLostOwner); }
      return Ok(session);
    }

    method Poll(sessionId: Id, now: Millis, leaseTtl: int, token: Id) returns (r: Result<Option<Lease>, ServerError>)
      modifies this
      ensures (View(), r) == Spec.Poll(old(View()), sessionId, now, leaseTtl, token)
    {
      var checked := RequireActiveSession(sessionId, now);
      if checked.Err? { return Err(checked.error); }
      var session := checked.value;
      if !TtlValid(leaseTtl) { return Err(TtlInvalid); }
      ghost var before := View();
      var i := 0;
      while i < |tasks|
        invariant i <= |tasks| && View() == before
        invariant forall k :: 0 <= k < i ==> !Pending(tasks[k], session.scope)
      {
        if !Pending(tasks[i], session.scope) {
          i := i + 1;
          continue;
        }
        FirstPendingIs(tasks, session.scope, i);
        var task := tasks[i];
        if LeaseInForce(task, now) { return Ok(task.lease); }
        if task.dispatch.plan.expiresAt <= now { return Err(PlanExpiredBeforeLease); }
        task := task.(attempts := task.attempts + 1);
        tasks := tasks[i := task];
        var drawn := Draw(token);
        if !drawn { return Err(TokenInvalidOrReused); }
        var lease := NewLease(task, task.attempts, session.scope.deviceId, now, leaseTtl, token);
        tasks := tasks[i := task.(lease := Some(lease))];
        assert tasks == before.tasks[i := task.(lease := Some(lease))];
        return Ok(Some(lease));
      }
      return Ok(None);
    }

    method Acknowledge(sessionId: Id, leaseToken: Id, taskId: Id, now: Millis) returns (r: Result<AckReceipt, ServerError>)
      modifies this
      ensures (View(), r) == Spec.Acknowledge(old(View()), sessionId, leaseToken, taskId, now)
    {
      var checked := RequireActiveSession(sessionId, now);
      if checked.Err? { return Err(checked.error); }
      var session := checked.value;
      var i := TaskIndex(tasks, session.scope.tenantId, taskId);
      if i == |tasks| || tasks[i].dispatch.scope != session.scope || tasks[i].lease.None? || tasks[i].lease.value.leaseToken != leaseToken {
        return Err(LeaseUnavailable);
      }
      if !LeaseInForce(tasks[i], now) { return Err(LeaseHasExpired); }
      tasks := tasks[i := tasks[i].(acknowledged := true)];
      return Ok(AckReceipt(taskId, tasks[i].lease.value.planId, session.scope.deviceId, now));
    }
  }

  lemma FirstPendingIs(tasks: seq<Task>, scope: Scope, i: nat)
    requires i < |tasks| && Pending(tasks[i], scope)
    requires forall k :: 0 <= k < i ==> !Pending(tasks[k], scope)
    ensures FirstPending(tasks, scope) == i
  {
    var first := FirstPending(tasks, scope);
    assert first < |tasks| by {
      assert !(i < first);
    }
  }
}
