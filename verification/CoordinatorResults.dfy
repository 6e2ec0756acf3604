/** What each request of the coordinator achieves and when it succeeds, from enqueuing a dispatch to the lease a poll gives
    for it. */
module CoordinatorResults {
  import opened Common
  import opened RunTypes
  import RunJournalProofs
  import RunJournalSpec
  import opened CoordinatorSpec
  import opened CoordinatorProofs

  // ---- Devices and challenges ----

  /** A device is registered exactly when it is a registered test device whose public key has not changed; then it is
      filed and nothing else changes. */
  lemma RegisterDeviceMeans(s: Server, device: Device)
    ensures var (after, r) := RegisterDevice(s, device);
            && (r.Ok? <==> && TestTenant(device.scope.tenantId) && device.registered
                           && (device.scope in s.devices ==> s.devices[device.scope].publicKey == device.publicKey))
            && after == (if r.Ok? then s.(devices := s.devices[device.scope := device]) else s)
  {
    hide TestTenant;
  }

  /** A challenge is issued exactly for a known device, with a valid time to live and two new, distinct, well-formed
      tokens. */
  lemma IssueChallengeMeans(s: Server, scope: Scope, now: Millis, ttl: int, idToken: Id, nonceToken: Id)
    requires ServerInv(s)
    ensures var (after, r) := IssueChallenge(s, scope, now, ttl, idToken, nonceToken);
            && (r.Ok? <==> && scope in s.devices && TtlValid(ttl) && Drawable(s, idToken) && Drawable(s, nonceToken) && idToken != nonceToken)
            && (r.Ok? ==> r.value == Challenge(idToken, scope, nonceToken, now, now + ttl))
            && (r.Ok? ==> after == s.(challenges := s.challenges[idToken := r.value], issued := s.issued + [idToken] + [nonceToken]))
            && (r.Err? ==> after.challenges == s.challenges)
  {
    hide TokenShaped, SessionsInv, QueueInv, TestTenant;
  }

  /** An opening whose proof was not verified changes nothing. */
  lemma UnverifiedOpensNothing(s: Server, challenge: Challenge, device: Device, now: Millis, ttl: int, token: Id)
    ensures FinishOpen(s, challenge, device, false, now, ttl, token) == (s, Err(ProofVerificationFailed))
  {
  }

  // ---- Sessions ----

  predicate CanAct(s: Server, sessionId: Id, now: Millis) {
    sessionId in s.sessions && s.sessions[sessionId].state == Active && now < s.sessions[sessionId].expiresAt
  }

  /** A session can act exactly while it is the active one of its device and has not expired. */
  lemma ActiveSessionMeans(s: Server, sessionId: Id, now: Millis)
    requires ServerInv(s)
    ensures var (after, r) := ActiveSession(s, sessionId, now);
            && (r.Ok? <==> CanAct(s, sessionId, now)) && (r.Ok? ==> r.value == s.sessions[sessionId] && after == s)
            && (sessionId in s.sessions && s.sessions[sessionId].expiresAt <= now ==>
                  sessionId in after.sessions && after.sessions[sessionId].state != Active)
  {
    hide QueueInv, DevicesInv;
  }

  /** A session that has expired gets nothing, changes no task, and is refused in every later history, whatever time the
      requests claim. */
  lemma ExpiredSessionNeverActs(
      s: Server, sessionId: Id, now: Millis, ttl: int, token: Id, later: seq<Request>, at: Millis, leaseToken: Id, taskId: Id)
    requires ServerInv(s) && sessionId in s.sessions && s.sessions[sessionId].expiresAt <= now
    ensures var (after, r) := Poll(s, sessionId, now, ttl, token); var end := ServeAll(after, later);
            && r.Err? && after.tasks == s.tasks && after.issued == s.issued
            && Poll(end, sessionId, at, ttl, token).1.Err? && Acknowledge(end, sessionId, leaseToken, taskId, at).1.Err?
  {
    hide ServerInv, TokenShaped, TtlValid, FirstPending, LeaseInForce, TaskIndex;
    ActiveSessionMeans(s, sessionId, now);
    ActiveSessionAlone(s, sessionId, now);
    var after := Poll(s, sessionId, now, ttl, token).0;
    assert after == ActiveSession(s, sessionId, now).0;
    PollInv(s, sessionId, now, ttl, token);
    HistoryKeepsInvariant(after, later);
    NeverActiveAgain(after, ServeAll(after, later), sessionId);
    ActiveSessionMeans(ServeAll(after, later), sessionId, at);
  }

  lemma NeverActiveAgain(a: Server, b: Server, sessionId: Id)
    requires Forward(a, b) && sessionId in a.sessions && a.sessions[sessionId].state != Active
    ensures sessionId in b.sessions && b.sessions[sessionId].state != Active
  {
    hide QueueForward, DevicesForward, ChallengesForward;
  }

  // ---- Enqueuing ----

  /** A dispatch the queue takes: of a test tenant, queued, without effects, for the user and device its plan names. */
  predicate DispatchOk(d: Dispatch) {
    && TestTenant(d.scope.tenantId) && d.queued
    && d.plan.envelope.allowedEffects == [] && d.plan.envelope.approvalGrants == []
    && d.plan.envelope.tenantId == d.scope.tenantId && d.plan.envelope.userId == d.scope.userId
    && d.plan.envelope.deviceId == d.scope.deviceId
  }

  /** No task of the tenant has the dispatch's id but another key, or its key but another id. */
  ghost predicate KeyFits(tasks: seq<Task>, d: Dispatch) {
    forall i :: 0 <= i < |tasks| && tasks[i].dispatch.scope.tenantId == d.scope.tenantId ==>
      (tasks[i].dispatch.taskId == d.taskId <==> tasks[i].dispatch.idempotencyKey == d.idempotencyKey)
  }

  ghost predicate Queued(tasks: seq<Task>, d: Dispatch) {
    exists i :: 0 <= i < |tasks| && tasks[i].dispatch.scope.tenantId == d.scope.tenantId && tasks[i].dispatch.taskId == d.taskId
  }

  lemma QueuedIff(tasks: seq<Task>, d: Dispatch)
    ensures Queued(tasks, d) <==> TaskIndex(tasks, d.scope.tenantId, d.taskId) < |tasks|
  {
  }

  /** The two key checks, one by task and one by key, together say that the key fits. */
  lemma KeyChecks(s: Server, d: Dispatch)
    requires TasksDistinct(s.tasks) && KeysLead(s.tasks, s.taskByKey) && KeysOwned(s.tasks, s.taskByKey)
    ensures var tenant := d.scope.tenantId; var i := TaskIndex(s.tasks, tenant, d.taskId); var key := (tenant, d.idempotencyKey);
            KeyFits(s.tasks, d) <==>
              && (i < |s.tasks| ==> s.tasks[i].dispatch.idempotencyKey == d.idempotencyKey)
              && (key in s.taskByKey ==> s.taskByKey[key] == (tenant, d.taskId))
  {
    var tenant := d.scope.tenantId;
    var i := TaskIndex(s.tasks, tenant, d.taskId);
    var key := (tenant, d.idempotencyKey);
    if KeyFits(s.tasks, d) && key in s.taskByKey {
      var k :| 0 <= k < |s.tasks| && IdempotencyKey(s.tasks[k]) == key && TaskKey(s.tasks[k]) == s.taskByKey[key];
      assert s.tasks[k].dispatch.taskId == d.taskId;
    }
    if (i < |s.tasks| ==> s.tasks[i].dispatch.idempotencyKey == d.idempotencyKey)
       && (key in s.taskByKey ==> s.taskByKey[key] == (tenant, d.taskId)) {
      forall k | 0 <= k < |s.tasks| && s.tasks[k].dispatch.scope.tenantId == tenant
        ensures s.tasks[k].dispatch.taskId == d.taskId <==> s.tasks[k].dispatch.idempotencyKey == d.idempotencyKey
      {
        if s.tasks[k].dispatch.taskId == d.taskId { FirstOfItsKey(s.tasks, k); }
        assert IdempotencyKey(s.tasks[k]) in s.taskByKey && s.taskByKey[IdempotencyKey(s.tasks[k])] == TaskKey(s.tasks[k]);
      }
    }
  }

  /** Enqueuing succeeds exactly for a dispatch that is in order and whose key fits. A new one goes to the end of the queue
      as it is, unleased and unacknowledged; one already there, and a refused one, change nothing. */
  lemma EnqueueMeans(s: Server, d: Dispatch)
    requires ServerInv(s)
    ensures var (after, r) := Enqueue(s, d);
            && (r.Ok? <==> DispatchOk(d) && KeyFits(s.tasks, d))
            && (r.Err? || Queued(s.tasks, d) ==> after == s)
            && (r.Ok? && !Queued(s.tasks, d) ==>
                  && after.tasks == s.tasks + [Task(d, None, 0, false)]
                  && after == s.(tasks := after.tasks, taskByKey := after.taskByKey))
            && (r.Ok? ==> Queued(after.tasks, d) && KeyFits(after.tasks, d))
  {
    hide TasksSound, TokensDistinct, QueueOrdered, SessionsInv, DevicesInv, TaskIndex, KeysLead, KeysOwned, TestTenant, KeyFits;
    KeyChecks(s, d);
    QueuedIff(s.tasks, d);
    var (after, r) := Enqueue(s, d);
    if r.Ok? && !Queued(s.tasks, d) {
      assert after.tasks[|s.tasks|].dispatch == d;
      KeyFitsLonger(s.tasks, d);
    }
  }

  lemma KeyFitsLonger(tasks: seq<Task>, d: Dispatch)
    requires KeyFits(tasks, d)
    ensures KeyFits(tasks + [Task(d, None, 0, false)], d)
  {
  }

  // ---- Polling ----

  /** A new lease of a task: for its plan, with the drawn token, one attempt more, from now for the time asked for. */
  predicate LeaseOf(lease: Lease, task: Task, deviceId: Id, now: Millis, ttl: int, token: Id) {
    && lease.schemaVersion == 1 && !lease.externalWrites
    && lease.taskId == task.dispatch.taskId && lease.plan == task.dispatch.plan && lease.planId == task.dispatch.plan.planId
    && lease.deviceId == deviceId && lease.leaseToken == token && lease.attempt == task.attempts + 1
    && lease.leasedAt == Some(now) && lease.expiresAt == Some(now + ttl)
  }

  /** A poll succeeds exactly for a session that can act and a valid time to live, when nothing is pending, or the first
      pending task's lease is in force, or its plan has not expired and the token can be drawn. A lease in force is given
      again and nothing changes; a new one is that of the task, for as long as asked. */
  lemma PollMeans(s: Server, sessionId: Id, now: Millis, ttl: int, token: Id)
    requires ServerInv(s) && CanAct(s, sessionId, now)
    ensures var scope := s.sessions[sessionId].scope; var i := FirstPending(s.tasks, scope); var (after, r) := Poll(s, sessionId, now, ttl, token);
            && (r.Ok? <==> && TtlValid(ttl)
                           && (i == |s.tasks| || LeaseInForce(s.tasks[i], now) || (now < s.tasks[i].dispatch.plan.expiresAt && Drawable(s, token))))
            && (r.Ok? && i == |s.tasks| ==> r.value == None && after == s)
            && (r.Ok? && i < |s.tasks| && LeaseInForce(s.tasks[i], now) ==> r.value == s.tasks[i].lease && after == s)
            && (r.Ok? && i < |s.tasks| && !LeaseInForce(s.tasks[i], now) ==>
                  && r.value.Some? && LeaseOf(r.value.value, s.tasks[i], scope.deviceId, now, ttl, token)
                  && after.tasks == s.tasks[i := s.tasks[i].(attempts := s.tasks[i].attempts + 1, lease := r.value)])
  {
    hide QueueInv, DevicesInv, TokenShaped, SessionsInv, ActiveSession, LeaseInForce;
    ActiveSessionMeans(s, sessionId, now);
  }

  /** A session that cannot act polls nothing. */
  lemma OthersPollNothing(s: Server, sessionId: Id, now: Millis, ttl: int, token: Id)
    requires ServerInv(s) && !CanAct(s, sessionId, now)
    ensures Poll(s, sessionId, now, ttl, token).1.Err? && Poll(s, sessionId, now, ttl, token).0.tasks == s.tasks
  {
    hide ServerInv, TokenShaped, ActiveSession, LeaseInForce, FirstPending, TtlValid;
    ActiveSessionMeans(s, sessionId, now);
    ActiveSessionAlone(s, sessionId, now);
    assert ActiveSession(s, sessionId, now).1.Err?;
  }

  /** End to end: a dispatch enqueued for a device with nothing pending is what the device's session is given by its next
      poll, as a lease of this task and plan for the time asked for. */
  lemma EnqueuedTaskIsLeased(s: Server, d: Dispatch, sessionId: Id, now: Millis, ttl: int, token: Id)
    requires ServerInv(s) && Enqueue(s, d).1.Ok? && !Queued(s.tasks, d)
    requires CanAct(s, sessionId, now) && s.sessions[sessionId].scope == d.scope && FirstPending(s.tasks, d.scope) == |s.tasks|
    requires TtlValid(ttl) && Drawable(s, token) && now < d.plan.expiresAt
    ensures var (after, r) := Poll(Enqueue(s, d).0, sessionId, now, ttl, token);
            && r.Ok? && r.value.Some? && LeaseOf(r.value.value, Task(d, None, 0, false), d.scope.deviceId, now, ttl, token)
            && after.tasks == s.tasks + [Task(d, r.value, 1, false)]
  {
    hide ServerInv, Poll, Enqueue, TokenShaped, Queued, TaskIndex, FirstPending;
    EnqueueMeans(s, d);
    EnqueueInv(s, d);
    var queued := Enqueue(s, d).0;
    PendingAtEnd(s.tasks, Task(d, None, 0, false));
    PollMeans(queued, sessionId, now, ttl, token);
  }

  lemma PendingAtEnd(tasks: seq<Task>, task: Task)
    requires FirstPending(tasks, task.dispatch.scope) == |tasks| && !task.acknowledged
    ensures FirstPending(tasks + [task], task.dispatch.scope) == |tasks|
  {
    var all := tasks + [task];
    var i := FirstPending(all, task.dispatch.scope);
    assert all[|tasks|] == task;
    forall k | 0 <= k < |tasks| ensures !Pending(all[k], task.dispatch.scope) { assert all[k] == tasks[k]; }
  }

  /** The lease a poll gives for the first pending task is one the client accepts, at that time and until it expires,
      exactly when its plan is valid, the executor has a name, the task's id is not blank and the attempts are countable. */
  lemma PolledLeaseIsAcceptable(s: Server, sessionId: Id, now: Millis, ttl: int, token: Id, at: Millis, executorId: Id)
    requires ServerInv(s) && CanAct(s, sessionId, now) && Poll(s, sessionId, now, ttl, token).1.Ok?
    requires var i := FirstPending(s.tasks, s.sessions[sessionId].scope); i < |s.tasks| && !LeaseInForce(s.tasks[i], now)
    ensures var task := s.tasks[FirstPending(s.tasks, s.sessions[sessionId].scope)]; var r := Poll(s, sessionId, now, ttl, token).1;
            r.value.Some? &&
            (RunJournalProofs.LeaseAcceptable(r.value.value, executorId, at) <==>
               && at < now + ttl && PlanValid(task.dispatch.plan, at) && IsIdentifier(executorId)
               && !RunJournalSpec.OnlySpaces(task.dispatch.taskId) && task.attempts < MAX_SAFE_INTEGER)
  {
    hide Poll, IsIdentifier, RunJournalSpec.OnlySpaces, SessionsInv, DevicesInv, TasksDistinct, TokensDistinct, QueueOrdered, KeysLead, KeysOwned;
    PollMeans(s, sessionId, now, ttl, token);
    var i := FirstPending(s.tasks, s.sessions[sessionId].scope);
    assert TaskInv(s.tasks[i], s.issued);
    assert TokenShaped(token);
  }

  // ---- Acknowledging ----

  /** An acknowledgement succeeds exactly for a session that can act, a task of its device and the token of the task's lease
      while that is in force; then exactly this task is marked. */
  lemma AcknowledgeMeans(s: Server, sessionId: Id, leaseToken: Id, taskId: Id, now: Millis)
    requires ServerInv(s)
    ensures var (after, r) := Acknowledge(s, sessionId, leaseToken, taskId, now);
            && (r.Ok? <==> CanAct(s, sessionId, now) && exists i :: Acknowledgeable(s, sessionId, leaseToken, taskId, now, i))
            && (r.Err? ==> after.tasks == s.tasks)
            && (r.Ok? ==> exists i :: Acknowledgeable(s, sessionId, leaseToken, taskId, now, i)
                            && after == s.(tasks := s.tasks[i := s.tasks[i].(acknowledged := true)])
                            && r.value == AckReceipt(taskId, s.tasks[i].dispatch.plan.planId, s.tasks[i].dispatch.scope.deviceId, now))
  {
    hide TasksSound, TokensDistinct, QueueOrdered, KeysLead, KeysOwned, SessionsInv, DevicesInv, TaskIndex, ActiveSession, LeaseInForce, TestTenant;
    ActiveSessionMeans(s, sessionId, now);
    ActiveSessionAlone(s, sessionId, now);
    assert CanAct(s, sessionId, now) <==> ActiveSession(s, sessionId, now).1.Ok?;
    if CanAct(s, sessionId, now) {
      var i := TaskIndex(s.tasks, s.sessions[sessionId].scope.tenantId, taskId);
      if i < |s.tasks| && LeasedBy(s, s.tasks[i], sessionId, leaseToken, now) {
        TaskOfLease(s, i);
        assert Acknowledgeable(s, sessionId, leaseToken, taskId, now, i);
      }
      if k :| Acknowledgeable(s, sessionId, leaseToken, taskId, now, k) {
        FirstOfItsKey(s.tasks, k);
      }
    }
  }

  predicate Acknowledgeable(s: Server, sessionId: Id, leaseToken: Id, taskId: Id, now: Millis, i: int) {
    0 <= i < |s.tasks| && s.tasks[i].dispatch.taskId == taskId && LeasedBy(s, s.tasks[i], sessionId, leaseToken, now)
  }

  lemma TaskOfLease(s: Server, i: nat)
    requires ServerInv(s) && i < |s.tasks| && s.tasks[i].lease.Some?
    ensures s.tasks[i].lease.value.planId == s.tasks[i].dispatch.plan.planId
  {
    assert TaskInv(s.tasks[i], s.issued);
  }
}
