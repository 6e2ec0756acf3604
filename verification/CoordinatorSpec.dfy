/** The device sync coordinator as a value: challenges, sessions, the task queue and its leases.
    Composite map keys are tuples; the token source's answers are parameters. */
module CoordinatorSpec {
  import opened Common
  import opened RunTypes

  datatype Scope = Scope(tenantId: Id, userId: Id, deviceId: Id)

  datatype Device = Device(scope: Scope, publicKey: string, registered: bool)

  datatype Challenge = Challenge(challengeId: Id, scope: Scope, nonce: Id, issuedAt: Millis, expiresAt: Millis)

  datatype Proof = Proof(schemaVersion: int, challengeId: Id, deviceId: Id, algorithm: string, keyId: string, signature: string)

  datatype SessionState = Active | Superseded | Expired

  datatype Session = Session(sessionId: Id, scope: Scope, issuedAt: Millis, expiresAt: Millis, state: SessionState)

  datatype Dispatch = Dispatch(scope: Scope, taskId: Id, idempotencyKey: string, plan: Plan, queued: bool)

  datatype Task = Task(dispatch: Dispatch, lease: Option<Lease>, attempts: nat, acknowledged: bool)

  datatype AckReceipt = AckReceipt(taskId: Id, planId: Id, deviceId: Id, acceptedAt: Millis)

  /** `tasks` and `issued` are in insertion order. */
  datatype Server = Server(
    devices: map<Scope, Device>,
    challenges: map<Id, Challenge>,
    sessions: map<Id, Session>,
    activeByDevice: map<Scope, Id>,
    tasks: seq<Task>,
    taskByKey: map<(Id, string), (Id, Id)>,
    issued: seq<Id>)

  const EMPTY_SERVER := Server(map[], map[], map[], map[], [], map[], [])

  datatype ServerError =
    | DeviceRejected | PublicKeyDrifted | DeviceUnavailable | TtlInvalid | TokenInvalidOrReused
    | ProofUnsupported | ChallengeUnavailable | ChallengeExpired | ProofInvalid | ProofVerificationFailed
    | SessionNotActive | SessionExpired | SessionLostOwner
    | DispatchRejected | EffectfulDispatch | DispatchScopeMismatch | TaskKeyConflict | KeyTaskConflict
    | PlanExpiredBeforeLease | LeaseUnavailable | LeaseHasExpired

  predicate TestTenant(tenantId: Id) {
    5 <= |tenantId| && tenantId[..5] == "test."
  }

  predicate TokenShaped(value: string) {
    1 <= |value| <= 256 && LowerAlnum(value[0])
    && forall i :: 0 <= i < |value| ==> LowerAlnum(value[i]) || value[i] in {'.', '_', ':', '-'}
  }

  predicate TtlValid(ttl: int) {
    1 <= ttl <= MAX_SAFE_INTEGER
  }

  /** A token is used once: an ill-formed or repeated value is refused. */
  predicate Drawable(s: Server, value: Id) {
    TokenShaped(value) && value !in s.issued
  }

  function Drawn(s: Server, value: Id): Server {
    s.(issued := s.issued + [value])
  }

  function RegisterDevice(s: Server, device: Device): (Server, Result<(), ServerError>) {
    if !TestTenant(device.scope.tenantId) || !device.registered then (s, Err(DeviceRejected))
    else if device.scope in s.devices && s.devices[device.scope].publicKey != device.publicKey then (s, Err(PublicKeyDrifted))
    else (s.(devices := s.devices[device.scope := device]), Ok(()))
  }

  function IssueChallenge(s: Server, scope: Scope, now: Millis, ttl: int, idToken: Id, nonceToken: Id): (Server, Result<Challenge, ServerError>) {
    if scope !in s.devices then (s, Err(DeviceUnavailable))
    else if !TtlValid(ttl) then (s, Err(TtlInvalid))
    else if !Drawable(s, idToken) then (s, Err(TokenInvalidOrReused))
    else
      var s1 := Drawn(s, idToken);
      if !Drawable(s1, nonceToken) then (s1, Err(TokenInvalidOrReused))
      else
        var challenge := Challenge(idToken, s.devices[scope].scope, nonceToken, now, now + ttl);
        (Drawn(s1, nonceToken).(challenges := s.challenges[idToken := challenge]), Ok(challenge))
  }

  /** The part of `openSession` before it awaits the signature check. */
  function BeginOpen(s: Server, proof: Proof, now: Millis): Result<(Challenge, Device), ServerError> {
    if proof.schemaVersion != 1 then Err(ProofUnsupported)
    else if proof.challengeId !in s.challenges || s.challenges[proof.challengeId].scope.deviceId != proof.deviceId then Err(ChallengeUnavailable)
    else if s.challenges[proof.challengeId].expiresAt <= now then Err(ChallengeExpired)
    else if proof.algorithm != "ed25519" || proof.keyId == "" || proof.signature == "" then Err(ProofInvalid)
    else if s.challenges[proof.challengeId].scope !in s.devices then Err(DeviceUnavailable)
    else Ok((s.challenges[proof.challengeId], s.devices[s.challenges[proof.challengeId].scope]))
  }

  function Supersede(s: Server, scope: Scope): Server {
    if scope in s.activeByDevice && s.activeByDevice[scope] in s.sessions then
      var id := s.activeByDevice[scope];
      s.(sessions := s.sessions[id := s.sessions[id].(state := Superseded)])
    else s
  }

  /** The part after the await. The challenge and device are those captured before it, so other calls
      may have run in between. */
  function FinishOpen(s: Server, challenge: Challenge, device: Device, verified: bool, now: Millis, ttl: int, token: Id)
    : (Server, Result<Session, ServerError>)
  {
    if !verified then (s, Err(ProofVerificationFailed))
    else if !TtlValid(ttl) then (s, Err(TtlInvalid))
    else
      var s1 := Supersede(s.(challenges := s.challenges - {challenge.challengeId}), device.scope);
      if !Drawable(s1, token) then (s1, Err(TokenInvalidOrReused))
      else
        var session := Session(token, device.scope, now, now + ttl, Active);
        (Drawn(s1, token).(sessions := s1.sessions[token := session], activeByDevice := s1.activeByDevice[device.scope := token]), Ok(session))
  }

  /** The position of a task in the queue, or the queue's length. */
  function TaskIndex(tasks: seq<Task>, tenantId: Id, taskId: Id): (i: nat)
    ensures i <= |tasks|
    ensures i < |tasks| ==> tasks[i].dispatch.scope.tenantId == tenantId && tasks[i].dispatch.taskId == taskId
    ensures forall k :: 0 <= k < i ==> !(tasks[k].dispatch.scope.tenantId == tenantId && tasks[k].dispatch.taskId == taskId)
  {
    if tasks == [] then 0
    else if tasks[0].dispatch.scope.tenantId == tenantId && tasks[0].dispatch.taskId == taskId then 0
    else
      var i := TaskIndex(tasks[1..], tenantId, taskId);
      assert forall k :: 1 <= k < i + 1 ==> tasks[k] == tasks[1..][k - 1];
      i + 1
  }

  function Enqueue(s: Server, d: Dispatch): (Server, Result<(), ServerError>) {
    var tenant := d.scope.tenantId;
    var i := TaskIndex(s.tasks, tenant, d.taskId);
    if !TestTenant(tenant) || !d.queued then (s, Err(DispatchRejected))
    else if d.plan.envelope.allowedEffects != [] || d.plan.envelope.approvalGrants != [] then (s, Err(EffectfulDispatch))
    else if d.plan.envelope.tenantId != tenant || d.plan.envelope.userId != d.scope.userId || d.plan.envelope.deviceId != d.scope.deviceId
    then (s, Err(DispatchScopeMismatch))
    else if i < |s.tasks| && s.tasks[i].dispatch.idempotencyKey != d.idempotencyKey then (s, Err(TaskKeyConflict))
    else if (tenant, d.idempotencyKey) in s.taskByKey && s.taskByKey[(tenant, d.idempotencyKey)] != (tenant, d.taskId) then (s, Err(KeyTaskConflict))
    else if i < |s.tasks| then (s, Ok(()))
    else (s.(tasks := s.tasks + [Task(d, None, 0, false)], taskByKey := s.taskByKey[(tenant, d.idempotencyKey) := (tenant, d.taskId)]), Ok(()))
  }

  /** A session that may act now; an elapsed one is marked expired even though the call fails. */
  function ActiveSession(s: Server, sessionId: Id, now: Millis): (Server, Result<Session, ServerError>) {
    if sessionId !in s.sessions || s.sessions[sessionId].state != Active then (s, Err(SessionNotActive))
    else
      var session := s.sessions[sessionId];
      if session.expiresAt <= now then (s.(sessions := s.sessions[sessionId := session.(state := Expired)]), Err(SessionExpired))
      else if session.scope !in s.activeByDevice || s.activeByDevice[session.scope] != sessionId then (s, Err(SessionLostOwner))
      else (s, Ok(session))
  }

  predicate Pending(task: Task, scope: Scope) {
    !task.acknowledged && task.dispatch.scope == scope
  }

  /** The position of the first unacknowledged task of a scope, or the queue's length. */
  function FirstPending(tasks: seq<Task>, scope: Scope): (i: nat)
    ensures i <= |tasks|
    ensures i < |tasks| ==> Pending(tasks[i], scope)
    ensures forall k :: 0 <= k < i ==> !Pending(tasks[k], scope)
  {
    if tasks == [] then 0
    else if Pending(tasks[0], scope) then 0
    else
      var i := FirstPending(tasks[1..], scope);
      assert forall k :: 1 <= k < i + 1 ==> tasks[k] == tasks[1..][k - 1];
      i + 1
  }

  predicate LeaseInForce(task: Task, now: Millis) {
    task.lease.Some? && task.lease.value.expiresAt.Some? && task.lease.value.expiresAt.value > now
  }

  function NewLease(task: Task, attempt: nat, deviceId: Id, now: Millis, ttl: int, token: Id): Lease {
    Lease(1, task.dispatch.taskId, task.dispatch.plan.planId, task.dispatch.plan, deviceId, token, attempt, Some(now), Some(now + ttl), false)
  }

  function Poll(s: Server, sessionId: Id, now: Millis, ttl: int, token: Id): (Server, Result<Option<Lease>, ServerError>) {
    var (s1, session) := ActiveSession(s, sessionId, now);
    if session.Err? then (s1, Err(session.error))
    else if !TtlValid(ttl) then (s1, Err(TtlInvalid))
    else
      var i := FirstPending(s1.tasks, session.value.scope);
      if i == |s1.tasks| then (s1, Ok(None))
      else
        var task := s1.tasks[i];
        if LeaseInForce(task, now) then (s1, Ok(task.lease))
        else if task.dispatch.plan.expiresAt <= now then (s1, Err(PlanExpiredBeforeLease))
        else
          var counted := task.(attempts := task.attempts + 1);
          if !Drawable(s1, token) then (s1.(tasks := s1.tasks[i := counted]), Err(TokenInvalidOrReused))
          else
            var lease := NewLease(task, counted.attempts, session.value.scope.deviceId, now, ttl, token);
            (Drawn(s1, token).(tasks := s1.tasks[i := counted.(lease := Some(lease))]), Ok(Some(lease)))
  }

  function Acknowledge(s: Server, sessionId: Id, leaseToken: Id, taskId: Id, now: Millis): (Server, Result<AckReceipt, ServerError>) {
    var (s1, session) := ActiveSession(s, sessionId, now);
    if session.Err? then (s1, Err(session.error))
    else
      var scope := session.value.scope;
      var i := TaskIndex(s1.tasks, scope.tenantId, taskId);
      if i == |s1.tasks| || s1.tasks[i].dispatch.scope != scope || s1.tasks[i].lease.None? || s1.tasks[i].lease.value.leaseToken != leaseToken
      then (s1, Err(LeaseUnavailable))
      else if !LeaseInForce(s1.tasks[i], now) then (s1, Err(LeaseHasExpired))
      else (s1.(tasks := s1.tasks[i := s1.tasks[i].(acknowledged := true)]),
            Ok(AckReceipt(taskId, s1.tasks[i].lease.value.planId, scope.deviceId, now)))
  }

  // ---- All requests as one step ----

  datatype Request =
    | Registering(device: Device)
    | Challenging(scope: Scope, now: Millis, ttl: int, idToken: Id, nonceToken: Id)
    | OpeningDone(challenge: Challenge, device: Device, verified: bool, now: Millis, ttl: int, token: Id)
    | Enqueuing(dispatch: Dispatch)
    | PollRequest(sessionId: Id, now: Millis, ttl: int, token: Id)
    | AckRequest(sessionId: Id, leaseToken: Id, taskId: Id, now: Millis)

  function Serve(s: Server, q: Request): Server {
    match q
    case Registering(device) => RegisterDevice(s, device).0
    case Challenging(scope, now, ttl, idToken, nonceToken) => IssueChallenge(s, scope, now, ttl, idToken, nonceToken).0
    case OpeningDone(challenge, device, verified, now, ttl, token) => FinishOpen(s, challenge, device, verified, now, ttl, token).0
    case Enqueuing(dispatch) => Enqueue(s, dispatch).0
    case PollRequest(sessionId, now, ttl, token) => Poll(s, sessionId, now, ttl, token).0
    case AckRequest(sessionId, leaseToken, taskId, now) => Acknowledge(s, sessionId, leaseToken, taskId, now).0
  }

  function ServeAll(s: Server, requests: seq<Request>): Server
    decreases |requests|
  {
    if requests == [] then s else ServeAll(Serve(s, requests[0]), requests[1..])
  }
}
