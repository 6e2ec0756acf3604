/** What every reachable coordinator state satisfies. */
module CoordinatorProofs {
  import opened Common
  import opened RunTypes
  import opened CoordinatorSpec

  // ---- The invariant ----

  /** Every active session is the one named for its device. */
  ghost predicate SessionsInv(sessions: map<Id, Session>, active: map<Scope, Id>, issued: seq<Id>) {
    && (forall id | id in sessions :: sessions[id].sessionId == id && id in issued)
    && (forall id | id in sessions && sessions[id].state == Active ::
          sessions[id].scope in active && active[sessions[id].scope] == id)
    && (forall scope | scope in active :: active[scope] in sessions && sessions[active[scope]].scope == scope)
  }

  ghost predicate TaskInv(t: Task, issued: seq<Id>) {
    && t.dispatch.plan.envelope.allowedEffects == [] && t.dispatch.plan.envelope.approvalGrants == []
    && t.dispatch.plan.envelope.deviceId == t.dispatch.scope.deviceId
    && t.dispatch.queued && TestTenant(t.dispatch.scope.tenantId)
    && (t.acknowledged ==> t.lease.Some?)
    && (t.lease.Some? ==>
          var l := t.lease.value;
          && l.leaseToken in issued && l.taskId == t.dispatch.taskId && l.plan == t.dispatch.plan && l.planId == l.plan.planId
          && l.deviceId == t.dispatch.scope.deviceId && !l.externalWrites && l.attempt <= t.attempts)
  }

  ghost predicate TasksSound(tasks: seq<Task>, issued: seq<Id>) {
    forall i | 0 <= i < |tasks| :: TaskInv(tasks[i], issued)
  }

  function TaskKey(t: Task): (Id, Id) {
    (t.dispatch.scope.tenantId, t.dispatch.taskId)
  }

  function IdempotencyKey(t: Task): (Id, string) {
    (t.dispatch.scope.tenantId, t.dispatch.idempotencyKey)
  }

  ghost predicate TasksDistinct(tasks: seq<Task>) {
    forall i, k | 0 <= i < k < |tasks| :: TaskKey(tasks[i]) != TaskKey(tasks[k])
  }

  ghost predicate TokensDistinct(tasks: seq<Task>) {
    forall i, k | 0 <= i < k < |tasks| && tasks[i].lease.Some? && tasks[k].lease.Some? ::
      tasks[i].lease.value.leaseToken != tasks[k].lease.value.leaseToken
  }

  /** A device's tasks, in enqueue order: acknowledged ones, then at most one leased one, then
      never-leased ones. */
  ghost predicate QueueOrdered(tasks: seq<Task>) {
    forall i, k | 0 <= i < k < |tasks| && tasks[i].dispatch.scope == tasks[k].dispatch.scope ::
      (tasks[k].acknowledged || tasks[k].lease.Some?) ==> tasks[i].acknowledged
  }

  /** (tenant, idempotency key) and task scope are in bijection: each task's key leads to it ... */
  ghost predicate KeysLead(tasks: seq<Task>, byKey: map<(Id, string), (Id, Id)>) {
    forall i | 0 <= i < |tasks| :: IdempotencyKey(tasks[i]) in byKey && byKey[IdempotencyKey(tasks[i])] == TaskKey(tasks[i])
  }

  /** ... and each recorded key is that of the task it leads to. */
  ghost predicate KeysOwned(tasks: seq<Task>, byKey: map<(Id, string), (Id, Id)>) {
    forall key | key in byKey :: exists i | 0 <= i < |tasks| :: IdempotencyKey(tasks[i]) == key && TaskKey(tasks[i]) == byKey[key]
  }

  ghost predicate QueueInv(s: Server) {
    && TasksSound(s.tasks, s.issued) && TasksDistinct(s.tasks) && TokensDistinct(s.tasks) && QueueOrdered(s.tasks)
    && KeysLead(s.tasks, s.taskByKey) && KeysOwned(s.tasks, s.taskByKey)
  }

  /** Devices are registered test devices filed under their own scope; a challenge is filed under its own id,
      an issued token, for such a device. */
  ghost predicate DevicesInv(devices: map<Scope, Device>, challenges: map<Id, Challenge>, issued: seq<Id>) {
    && (forall scope | scope in devices :: devices[scope].scope == scope && devices[scope].registered && TestTenant(scope.tenantId))
    && (forall id | id in challenges :: challenges[id].challengeId == id && challenges[id].scope in devices && id in issued)
  }

  ghost predicate ServerInv(s: Server) {
    && SessionsInv(s.sessions, s.activeByDevice, s.issued) && QueueInv(s) && Distinct(s.issued)
    && DevicesInv(s.devices, s.challenges, s.issued)
  }

  /** A registered device stays registered with its public key. */
  ghost predicate DevicesForward(a: map<Scope, Device>, b: map<Scope, Device>) {
    forall scope | scope in a :: scope in b && b[scope].publicKey == a[scope].publicKey
  }

  /** A challenge does not change, and one that is gone does not come back. */
  ghost predicate ChallengesForward(a: map<Id, Challenge>, b: map<Id, Challenge>, issued: seq<Id>) {
    forall id | id in issued && id in b :: id in a && b[id] == a[id]
  }

  /** No session leaves and re-enters the active state, and none is renamed or forgotten. */
  ghost predicate SessionsForward(a: map<Id, Session>, b: map<Id, Session>) {
    forall id | id in a :: id in b && b[id].scope == a[id].scope && (b[id].state == Active ==> b[id] == a[id])
  }

  ghost predicate TaskForward(a: Task, b: Task) {
    a.dispatch == b.dispatch && a.attempts <= b.attempts && (a.acknowledged ==> b == a)
  }

  /** A task keeps its place and dispatch, and an acknowledged one never changes. */
  ghost predicate QueueForward(a: seq<Task>, b: seq<Task>) {
    |a| <= |b| && forall i | 0 <= i < |a| :: TaskForward(a[i], b[i])
  }

  /** Devices, challenges, sessions, tasks and the record of issued tokens only move forward. */
  ghost predicate Forward(s: Server, s': Server) {
    && SessionsForward(s.sessions, s'.sessions) && QueueForward(s.tasks, s'.tasks) && s.issued <= s'.issued
    && DevicesForward(s.devices, s'.devices) && ChallengesForward(s.challenges, s'.challenges, s.issued)
  }

  lemma ForwardTransitive(a: Server, b: Server, c: Server)
    requires Forward(a, b) && Forward(b, c)
    ensures Forward(a, c)
  {
    hide SessionsForward, QueueForward, ChallengesForward;
    SessionsForwardTransitive(a.sessions, b.sessions, c.sessions);
    QueueForwardTransitive(a.tasks, b.tasks, c.tasks);
    ChallengesForwardTransitive(a, b, c);
  }

  lemma SessionsForwardTransitive(a: map<Id, Session>, b: map<Id, Session>, c: map<Id, Session>)
    requires SessionsForward(a, b) && SessionsForward(b, c)
    ensures SessionsForward(a, c)
  {
  }

  lemma QueueForwardTransitive(a: seq<Task>, b: seq<Task>, c: seq<Task>)
    requires QueueForward(a, b) && QueueForward(b, c)
    ensures QueueForward(a, c)
  {
    forall i | 0 <= i < |a| ensures TaskForward(a[i], c[i]) {
      assert TaskForward(a[i], b[i]) && TaskForward(b[i], c[i]);
    }
  }

  lemma ChallengesForwardTransitive(a: Server, b: Server, c: Server)
    requires ChallengesForward(a.challenges, b.challenges, a.issued) && ChallengesForward(b.challenges, c.challenges, b.issued)
    requires a.issued <= b.issued
    ensures ChallengesForward(a.challenges, c.challenges, a.issued)
  {
    forall id | id in a.issued && id in c.challenges ensures id in a.challenges && c.challenges[id] == a.challenges[id] {
      MembershipGrows(a.issued, b.issued, id);
    }
  }

  /** Requests that leave devices and challenges alone, or drop a challenge. */
  lemma DevicesUntouched(s: Server, s': Server)
    requires DevicesInv(s.devices, s.challenges, s.issued) && s'.devices == s.devices && s.issued <= s'.issued
    requires forall id | id in s'.challenges :: id in s.challenges && s'.challenges[id] == s.challenges[id]
    ensures DevicesInv(s'.devices, s'.challenges, s'.issued)
    ensures DevicesForward(s.devices, s'.devices) && ChallengesForward(s.challenges, s'.challenges, s.issued)
  {
    forall id | id in s'.challenges ensures id in s'.issued { MembershipGrows(s.issued, s'.issued, id); }
  }

  lemma MembershipGrows(a: seq<Id>, b: seq<Id>, token: Id)
    requires a <= b && token in a
    ensures token in b
  {
    var k :| 0 <= k < |a| && a[k] == token;
    assert b[k] == token;
  }

  // ---- Sessions ----

  /** The lost-owner branch is never taken. */
  lemma LostOwnerUnreachable(s: Server, sessionId: Id, now: Millis)
    requires ServerInv(s)
    ensures ActiveSession(s, sessionId, now).1 != Err(SessionLostOwner)
  {
  }

  /** At most one session of a device is active. */
  lemma OneActiveSession(s: Server, a: Id, b: Id)
    requires ServerInv(s) && a in s.sessions && b in s.sessions
    requires s.sessions[a].state == Active && s.sessions[b].state == Active && s.sessions[a].scope == s.sessions[b].scope
    ensures a == b
  {
    hide QueueInv;
    assert s.activeByDevice[s.sessions[a].scope] == a;
  }

  lemma SessionsWithMoreTokens(sessions: map<Id, Session>, active: map<Scope, Id>, a: seq<Id>, b: seq<Id>)
    requires SessionsInv(sessions, active, a) && a <= b
    ensures SessionsInv(sessions, active, b)
  {
    forall id | id in sessions ensures id in b {
      MembershipGrows(a, b, id);
    }
  }

  lemma TasksWithMoreTokens(tasks: seq<Task>, a: seq<Id>, b: seq<Id>)
    requires TasksSound(tasks, a) && a <= b
    ensures TasksSound(tasks, b)
  {
    forall i | 0 <= i < |tasks| ensures TaskInv(tasks[i], b) {
      assert TaskInv(tasks[i], a);
      if tasks[i].lease.Some? { MembershipGrows(a, b, tasks[i].lease.value.leaseToken); }
    }
  }

  /** A session leaves the active state. */
  lemma SessionDeactivated(sessions: map<Id, Session>, active: map<Scope, Id>, issued: seq<Id>, id: Id, state: SessionState)
    requires SessionsInv(sessions, active, issued) && id in sessions && state != Active
    ensures var after := sessions[id := sessions[id].(state := state)];
            SessionsInv(after, active, issued) && SessionsForward(sessions, after)
  {
  }

  lemma SessionsUntouched(sessions: map<Id, Session>)
    ensures SessionsForward(sessions, sessions)
  {
  }

  lemma ActiveSessionInv(s: Server, sessionId: Id, now: Millis)
    requires ServerInv(s)
    ensures var (s1, r) := ActiveSession(s, sessionId, now);
            && ServerInv(s1) && Forward(s, s1) && s1 == s.(sessions := s1.sessions)
            && (r.Ok? ==> s1 == s && sessionId in s.sessions && r.value == s.sessions[sessionId] && r.value.state == Active)
  {
    hide QueueInv, QueueForward, SessionsInv, SessionsForward, DevicesInv, DevicesForward, ChallengesForward;
    var s1 := ActiveSession(s, sessionId, now).0;
    DevicesUntouched(s, s1);
    QueueUntouched(s, s1);
    SessionsUntouched(s.sessions);
    if sessionId in s.sessions {
      SessionDeactivated(s.sessions, s.activeByDevice, s.issued, sessionId, Expired);
    }
  }

  lemma SupersedeInv(s: Server, scope: Scope)
    requires SessionsInv(s.sessions, s.activeByDevice, s.issued)
    ensures var s1 := Supersede(s, scope);
            && SessionsInv(s1.sessions, s1.activeByDevice, s1.issued) && SessionsForward(s.sessions, s1.sessions)
            && s1 == s.(sessions := s1.sessions)
            && forall id | id in s1.sessions && s1.sessions[id].scope == scope :: s1.sessions[id].state != Active
  {
    if scope in s.activeByDevice && s.activeByDevice[scope] in s.sessions {
      SessionDeactivated(s.sessions, s.activeByDevice, s.issued, s.activeByDevice[scope], Superseded);
    }
  }

  lemma SessionOpened(sessions: map<Id, Session>, active: map<Scope, Id>, issued: seq<Id>, session: Session)
    requires SessionsInv(sessions, active, issued) && session.sessionId !in issued && session.state == Active
    requires forall id | id in sessions && sessions[id].scope == session.scope :: sessions[id].state != Active
    ensures SessionsInv(sessions[session.sessionId := session], active[session.scope := session.sessionId], issued + [session.sessionId])
    ensures SessionsForward(sessions, sessions[session.sessionId := session])
  {
    assert session.sessionId !in sessions;
  }

  lemma DrawnStaysDistinct(issued: seq<Id>, token: Id)
    requires Distinct(issued) && token !in issued
    ensures Distinct(issued + [token])
  {
  }

  /** Requests that leave the queue alone keep its invariants. */
  lemma QueueUntouched(s: Server, s': Server)
    requires QueueInv(s) && s'.tasks == s.tasks && s'.taskByKey == s.taskByKey && s.issued <= s'.issued
    ensures QueueInv(s') && QueueForward(s.tasks, s'.tasks)
  {
    hide TasksSound, TasksDistinct, TokensDistinct, QueueOrdered, KeysLead, KeysOwned;
    TasksWithMoreTokens(s.tasks, s.issued, s'.issued);
  }

  lemma FinishOpenInv(s: Server, challenge: Challenge, device: Device, verified: bool, now: Millis, ttl: int, token: Id)
    requires ServerInv(s)
    ensures var s' := FinishOpen(s, challenge, device, verified, now, ttl, token).0; ServerInv(s') && Forward(s, s')
  {
    hide QueueInv, QueueForward, SessionsInv, Supersede, TokenShaped, DevicesInv, DevicesForward, ChallengesForward;
    var s' := FinishOpen(s, challenge, device, verified, now, ttl, token).0;
    var s0 := s.(challenges := s.challenges - {challenge.challengeId});
    var s1 := Supersede(s0, device.scope);
    SupersedeInv(s0, device.scope);
    QueueUntouched(s, s');
    DevicesUntouched(s, s');
    if verified && TtlValid(ttl) && Drawable(s1, token) {
      SessionOpened(s1.sessions, s1.activeByDevice, s1.issued, Session(token, device.scope, now, now + ttl, Active));
      DrawnStaysDistinct(s.issued, token);
    }
  }

  lemma IssueChallengeInv(s: Server, scope: Scope, now: Millis, ttl: int, idToken: Id, nonceToken: Id)
    requires ServerInv(s)
    ensures var s' := IssueChallenge(s, scope, now, ttl, idToken, nonceToken).0; ServerInv(s') && Forward(s, s')
  {
    hide QueueInv, QueueForward, SessionsInv, TokenShaped, DevicesInv, DevicesForward, ChallengesForward;
    var s' := IssueChallenge(s, scope, now, ttl, idToken, nonceToken).0;
    assert s.issued <= s'.issued;
    ChallengeStored(s, scope, now, ttl, idToken, nonceToken);
    SessionsWithMoreTokens(s.sessions, s.activeByDevice, s.issued, s'.issued);
    QueueUntouched(s, s');
    if Drawable(s, idToken) {
      DrawnStaysDistinct(s.issued, idToken);
      if Drawable(Drawn(s, idToken), nonceToken) {
        DrawnStaysDistinct(s.issued + [idToken], nonceToken);
      }
    }
  }

  lemma ChallengeStored(s: Server, scope: Scope, now: Millis, ttl: int, idToken: Id, nonceToken: Id)
    requires DevicesInv(s.devices, s.challenges, s.issued)
    ensures var s' := IssueChallenge(s, scope, now, ttl, idToken, nonceToken).0;
            && DevicesInv(s'.devices, s'.challenges, s'.issued)
            && DevicesForward(s.devices, s'.devices) && ChallengesForward(s.challenges, s'.challenges, s.issued)
  {
    hide Drawable, DevicesInv, DevicesForward, ChallengesForward;
    var (s', r) := IssueChallenge(s, scope, now, ttl, idToken, nonceToken);
    DrawableIsNew(s, idToken);
    if r.Err? {
      DevicesUntouched(s, s');
    } else {
      assert s'.issued == s.issued + [idToken, nonceToken];
      ChallengeAdded(s.devices, s.challenges, s.issued, r.value, nonceToken);
    }
  }

  lemma ChallengeAdded(devices: map<Scope, Device>, challenges: map<Id, Challenge>, issued: seq<Id>, c: Challenge, nonce: Id)
    requires DevicesInv(devices, challenges, issued) && c.challengeId !in issued
    requires exists scope :: scope in devices && c.scope == devices[scope].scope
    ensures DevicesInv(devices, challenges[c.challengeId := c], issued + [c.challengeId, nonce])
    ensures DevicesForward(devices, devices) && ChallengesForward(challenges, challenges[c.challengeId := c], issued)
  {
    hide TestTenant;
    assert (issued + [c.challengeId, nonce])[|issued|] == c.challengeId;
  }

  lemma DrawableIsNew(s: Server, token: Id)
    ensures Drawable(s, token) ==> token !in s.issued
  {
    hide TokenShaped;
  }

  lemma RegisterDeviceInv(s: Server, device: Device)
    requires ServerInv(s)
    ensures var s' := RegisterDevice(s, device).0; ServerInv(s') && Forward(s, s')
  {
    hide QueueInv, QueueForward, SessionsInv, TestTenant, DevicesInv, DevicesForward, ChallengesForward;
    QueueUntouched(s, RegisterDevice(s, device).0);
    DeviceFiled(s, device);
  }

  lemma DeviceFiled(s: Server, device: Device)
    requires DevicesInv(s.devices, s.challenges, s.issued)
    ensures var s' := RegisterDevice(s, device).0;
            && DevicesInv(s'.devices, s'.challenges, s'.issued)
            && DevicesForward(s.devices, s'.devices) && ChallengesForward(s.challenges, s'.challenges, s.issued)
  {
    hide TestTenant, DevicesInv, ChallengesForward;
    DevicesUntouched(s, s);
    if RegisterDevice(s, device).1.Ok? {
      DeviceAdded(s.devices, s.challenges, s.issued, device);
    }
  }

  lemma DeviceAdded(devices: map<Scope, Device>, challenges: map<Id, Challenge>, issued: seq<Id>, device: Device)
    requires DevicesInv(devices, challenges, issued) && device.registered && TestTenant(device.scope.tenantId)
    ensures DevicesInv(devices[device.scope := device], challenges, issued)
  {
    hide TestTenant;
  }

  // ---- Queue ----

  lemma KeysWithNewTask(tasks: seq<Task>, byKey: map<(Id, string), (Id, Id)>, t: Task)
    requires KeysLead(tasks, byKey) && KeysOwned(tasks, byKey)
    requires IdempotencyKey(t) in byKey ==> byKey[IdempotencyKey(t)] == TaskKey(t)
    ensures KeysLead(tasks + [t], byKey[IdempotencyKey(t) := TaskKey(t)])
    ensures KeysOwned(tasks + [t], byKey[IdempotencyKey(t) := TaskKey(t)])
  {
    var after, byKey' := tasks + [t], byKey[IdempotencyKey(t) := TaskKey(t)];
    forall key | key in byKey' ensures exists i | 0 <= i < |after| :: IdempotencyKey(after[i]) == key && TaskKey(after[i]) == byKey'[key] {
      if key == IdempotencyKey(t) {
        assert after[|tasks|] == t;
      } else {
        var i :| 0 <= i < |tasks| && IdempotencyKey(tasks[i]) == key && TaskKey(tasks[i]) == byKey[key];
        assert after[i] == tasks[i];
      }
    }
  }

  lemma EnqueuedQueueInv(s: Server, d: Dispatch)
    requires QueueInv(s)
    ensures var s' := Enqueue(s, d).0; QueueInv(s') && QueueForward(s.tasks, s'.tasks)
  {
    hide KeysLead, KeysOwned, TestTenant;
    var s' := Enqueue(s, d).0;
    if s' != s {
      KeysWithNewTask(s.tasks, s.taskByKey, Task(d, None, 0, false));
    }
  }

  lemma EnqueueInv(s: Server, d: Dispatch)
    requires ServerInv(s)
    ensures var s' := Enqueue(s, d).0; ServerInv(s') && Forward(s, s')
  {
    hide SessionsInv, QueueInv, QueueForward, TaskIndex, TestTenant, DevicesInv, DevicesForward, ChallengesForward;
    DevicesUntouched(s, Enqueue(s, d).0);
    EnqueuedQueueInv(s, d);
  }

  lemma KeysWithSameDispatches(a: seq<Task>, b: seq<Task>, byKey: map<(Id, string), (Id, Id)>)
    requires KeysLead(a, byKey) && KeysOwned(a, byKey)
    requires |a| == |b| && forall i | 0 <= i < |a| :: a[i].dispatch == b[i].dispatch
    ensures KeysLead(b, byKey) && KeysOwned(b, byKey)
  {
    forall key | key in byKey ensures exists i | 0 <= i < |b| :: IdempotencyKey(b[i]) == key && TaskKey(b[i]) == byKey[key] {
      var i :| 0 <= i < |a| && IdempotencyKey(a[i]) == key && TaskKey(a[i]) == byKey[key];
      assert IdempotencyKey(b[i]) == key;
    }
  }

  /** A new lease token differs from those of all other tasks. */
  lemma TokensStayDistinct(tasks: seq<Task>, issued: seq<Id>, i: nat, t: Task)
    requires TasksSound(tasks, issued) && TokensDistinct(tasks) && i < |tasks|
    requires t.lease == tasks[i].lease || (t.lease.Some? && t.lease.value.leaseToken !in issued)
    ensures TokensDistinct(tasks[i := t])
  {
    forall k | 0 <= k < |tasks| && tasks[k].lease.Some? ensures tasks[k].lease.value.leaseToken in issued {
      assert TaskInv(tasks[k], issued);
    }
  }

  lemma OrderWithReplacedTask(tasks: seq<Task>, i: nat, t: Task)
    requires QueueOrdered(tasks) && i < |tasks| && t.dispatch == tasks[i].dispatch && (tasks[i].acknowledged ==> t.acknowledged)
    requires forall k | 0 <= k < i && tasks[k].dispatch.scope == t.dispatch.scope :: tasks[k].acknowledged
    ensures QueueOrdered(tasks[i := t])
  {
  }

  /** Replacing one task by a later version of itself. */
  lemma TaskReplaced(s: Server, s': Server, i: nat, t: Task)
    requires QueueInv(s) && i < |s.tasks| && TaskForward(s.tasks[i], t)
    requires forall k | 0 <= k < i && s.tasks[k].dispatch.scope == t.dispatch.scope :: s.tasks[k].acknowledged
    requires s.issued <= s'.issued && TaskInv(t, s'.issued)
    requires t.lease == s.tasks[i].lease || (t.lease.Some? && t.lease.value.leaseToken !in s.issued)
    requires s'.tasks == s.tasks[i := t] && s'.taskByKey == s.taskByKey
    ensures QueueInv(s') && QueueForward(s.tasks, s'.tasks)
  {
    hide TokensDistinct, QueueOrdered, KeysLead, KeysOwned, TaskInv;
    TasksWithMoreTokens(s.tasks, s.issued, s'.issued);
    TokensStayDistinct(s.tasks, s.issued, i, t);
    OrderWithReplacedTask(s.tasks, i, t);
    KeysWithSameDispatches(s.tasks, s'.tasks, s.taskByKey);
  }

  lemma PolledTaskInv(s: Server, scope: Scope, i: nat, now: Millis, ttl: int, token: Id, s': Server)
    requires QueueInv(s) && Distinct(s.issued)
    requires i == FirstPending(s.tasks, scope) && i < |s.tasks|
    requires var counted := s.tasks[i].(attempts := s.tasks[i].attempts + 1);
             || s' == s.(tasks := s.tasks[i := counted])
             || (token !in s.issued && s' == Drawn(s, token).(tasks := s.tasks[i :=
                   counted.(lease := Some(NewLease(s.tasks[i], counted.attempts, scope.deviceId, now, ttl, token)))]))
    ensures QueueInv(s') && QueueForward(s.tasks, s'.tasks) && Distinct(s'.issued) && s.issued <= s'.issued
  {
    hide TasksDistinct, TokensDistinct, QueueOrdered, KeysLead, KeysOwned;
    assert TaskInv(s.tasks[i], s.issued);
    if token !in s.issued {
      DrawnStaysDistinct(s.issued, token);
    }
    TaskReplaced(s, s', i, s'.tasks[i]);
  }

  lemma PollInv(s: Server, sessionId: Id, now: Millis, ttl: int, token: Id)
    requires ServerInv(s)
    ensures var s' := Poll(s, sessionId, now, ttl, token).0; ServerInv(s') && Forward(s, s')
  {
    hide QueueInv, QueueForward, SessionsInv, SessionsForward, ActiveSession, TokenShaped, DevicesInv, DevicesForward, ChallengesForward;
    ActiveSessionInv(s, sessionId, now);
    DevicesUntouched(s, Poll(s, sessionId, now, ttl, token).0);
    var s' := Poll(s, sessionId, now, ttl, token).0;
    var (s1, session) := ActiveSession(s, sessionId, now);
    if session.Ok? && TtlValid(ttl) {
      var i := FirstPending(s.tasks, session.value.scope);
      if s' != s {
        PolledTaskInv(s, session.value.scope, i, now, ttl, token, s');
        SessionsWithMoreTokens(s.sessions, s.activeByDevice, s.issued, s'.issued);
      }
    }
  }

  lemma AcknowledgedTaskInv(s: Server, i: nat, s': Server)
    requires QueueInv(s) && i < |s.tasks| && s.tasks[i].lease.Some?
    requires s' == s.(tasks := s.tasks[i := s.tasks[i].(acknowledged := true)])
    ensures QueueInv(s') && QueueForward(s.tasks, s'.tasks)
  {
    hide TasksDistinct, TokensDistinct, KeysLead, KeysOwned;
    assert TaskInv(s.tasks[i], s.issued);
    TaskReplaced(s, s', i, s'.tasks[i]);
  }

  lemma AcknowledgeInv(s: Server, sessionId: Id, leaseToken: Id, taskId: Id, now: Millis)
    requires ServerInv(s)
    ensures var s' := Acknowledge(s, sessionId, leaseToken, taskId, now).0; ServerInv(s') && Forward(s, s')
  {
    hide QueueInv, QueueForward, SessionsInv, SessionsForward, ActiveSession, DevicesInv, DevicesForward, ChallengesForward;
    ActiveSessionInv(s, sessionId, now);
    DevicesUntouched(s, Acknowledge(s, sessionId, leaseToken, taskId, now).0);
    var s' := Acknowledge(s, sessionId, leaseToken, taskId, now).0;
    var (s1, session) := ActiveSession(s, sessionId, now);
    if session.Ok? && s' != s {
      AcknowledgedTaskInv(s, TaskIndex(s.tasks, session.value.scope.tenantId, taskId), s');
    }
  }

  /** An idempotency key names one task, and enqueuing its dispatch again changes nothing. */
  lemma KeyNamesOneTask(s: Server, i: nat, k: nat)
    requires ServerInv(s) && i < |s.tasks| && k < |s.tasks| && IdempotencyKey(s.tasks[i]) == IdempotencyKey(s.tasks[k])
    ensures i == k
    ensures Enqueue(s, s.tasks[i].dispatch).0 == s
  {
    hide SessionsInv, TokensDistinct, QueueOrdered, KeysOwned, TestTenant, DevicesInv;
    assert TaskInv(s.tasks[i], s.issued);
    assert TaskKey(s.tasks[i]) == TaskKey(s.tasks[k]);
  }

  // ---- Whole histories ----

  lemma ServeKeepsInvariant(s: Server, q: Request)
    requires ServerInv(s)
    ensures ServerInv(Serve(s, q)) && Forward(s, Serve(s, q))
  {
    hide ServerInv, Forward;
    match q
    case Registering(device) => RegisterDeviceInv(s, device);
    case Challenging(scope, now, ttl, idToken, nonceToken) => IssueChallengeInv(s, scope, now, ttl, idToken, nonceToken);
    case OpeningDone(challenge, device, verified, now, ttl, token) => FinishOpenInv(s, challenge, device, verified, now, ttl, token);
    case Enqueuing(dispatch) => EnqueueInv(s, dispatch);
    case PollRequest(sessionId, now, ttl, token) => PollInv(s, sessionId, now, ttl, token);
    case AckRequest(sessionId, leaseToken, taskId, now) => AcknowledgeInv(s, sessionId, leaseToken, taskId, now);
  }

  lemma NothingChanges(s: Server)
    ensures Forward(s, s)
  {
  }

  /** Every history of requests, in any interleaving of overlapping session openings, keeps the
      invariant, never revives a session, changes a device's public key or a challenge, or touches an acknowledged
      task again. */
  lemma {:induction false} HistoryKeepsInvariant(s: Server, requests: seq<Request>)
    requires ServerInv(s)
    ensures ServerInv(ServeAll(s, requests)) && Forward(s, ServeAll(s, requests))
    decreases |requests|
  {
    hide ServerInv, Forward;
    if requests == [] {
      NothingChanges(s);
    } else {
      var s1 := Serve(s, requests[0]);
      ServeKeepsInvariant(s, requests[0]);
      HistoryKeepsInvariant(s1, requests[1..]);
      ForwardTransitive(s, s1, ServeAll(s, requests));
    }
  }

  lemma EmptyServerInv()
    ensures ServerInv(EMPTY_SERVER)
  {
  }

  lemma SessionRequestsKeepTasks(s: Server, q: Request)
    requires q.Registering? || q.Challenging? || q.OpeningDone?
    ensures Serve(s, q).tasks == s.tasks
  {
    hide TokenShaped;
  }

  /** What a poll does to the queue: nothing, or one more attempt at the first pending task, with a new lease
      if the token can be drawn. */
  lemma PollTasks(s: Server, sessionId: Id, now: Millis, ttl: int, token: Id)
    ensures var s' := Poll(s, sessionId, now, ttl, token).0;
            || (s'.tasks == s.tasks && s'.issued == s.issued)
            || (sessionId in s.sessions
                && var scope := s.sessions[sessionId].scope; var i := FirstPending(s.tasks, scope);
                   && i < |s.tasks| && !LeaseInForce(s.tasks[i], now)
                   && var counted := s.tasks[i].(attempts := s.tasks[i].attempts + 1);
                      || (s'.tasks == s.tasks[i := counted] && s'.issued == s.issued)
                      || (token !in s.issued && s'.issued == s.issued + [token] && s'.tasks == s.tasks[i :=
                            counted.(lease := Some(NewLease(s.tasks[i], counted.attempts, scope.deviceId, now, ttl, token)))]))
  {
    hide Drawable, ActiveSession, LeaseInForce, NewLease;
    ActiveSessionAlone(s, sessionId, now);
    DrawableIsNew(s, token);
    var (s1, session) := ActiveSession(s, sessionId, now);
    if session.Ok? && TtlValid(ttl) {
      var i := FirstPending(s.tasks, session.value.scope);
      if i < |s.tasks| && LeaseInForce(s.tasks[i], now) {
        assert Poll(s, sessionId, now, ttl, token).0 == s;
      }
    }
  }

  lemma ActiveSessionAlone(s: Server, sessionId: Id, now: Millis)
    ensures var (s1, r) := ActiveSession(s, sessionId, now);
            && s1 == s.(sessions := s1.sessions)
            && (r.Ok? ==> s1 == s && sessionId in s.sessions && r.value == s.sessions[sessionId])
  {
  }

  /** The task is leased to the session's device under this token, and the lease is in force. */
  predicate LeasedBy(s: Server, task: Task, sessionId: Id, leaseToken: Id, now: Millis) {
    && sessionId in s.sessions && task.dispatch.scope == s.sessions[sessionId].scope
    && task.lease.Some? && task.lease.value.leaseToken == leaseToken && LeaseInForce(task, now)
  }

  /** What an acknowledgement does to the server: it may mark a session expired, and the task whose lease in
      force has this token, of the session's own device. */
  lemma AcknowledgedTasks(s: Server, sessionId: Id, leaseToken: Id, taskId: Id, now: Millis)
    ensures var s' := Acknowledge(s, sessionId, leaseToken, taskId, now).0;
            && s' == s.(sessions := s'.sessions, tasks := s'.tasks)
            && (s'.tasks == s.tasks || exists i | 0 <= i < |s.tasks| && LeasedBy(s, s.tasks[i], sessionId, leaseToken, now) ::
                                         s'.tasks == s.tasks[i := s.tasks[i].(acknowledged := true)])
  {
    hide ActiveSession, LeaseInForce;
    ActiveSessionAlone(s, sessionId, now);
    var session := ActiveSession(s, sessionId, now).1;
    if session.Ok? {
      var i := TaskIndex(s.tasks, session.value.scope.tenantId, taskId);
      if i < |s.tasks| && LeasedBy(s, s.tasks[i], sessionId, leaseToken, now) {
        var after := Acknowledge(s, sessionId, leaseToken, taskId, now).0.tasks;
        assert after == s.tasks[i := s.tasks[i].(acknowledged := true)];
      }
    }
  }

  lemma EnqueuedTasks(s: Server, d: Dispatch)
    ensures s.tasks <= Enqueue(s, d).0.tasks
  {
    hide TestTenant;
  }

  lemma OtherRequestsAcknowledgeNothing(s: Server, q: Request, i: nat)
    requires !q.AckRequest? && i < |s.tasks| && i < |Serve(s, q).tasks|
    ensures Serve(s, q).tasks[i].acknowledged == s.tasks[i].acknowledged
  {
    hide FinishOpen, IssueChallenge, RegisterDevice, Poll, Enqueue, Acknowledge, LeaseInForce, NewLease;
    match q
    case PollRequest(sessionId, now, ttl, token) => PollTasks(s, sessionId, now, ttl, token);
    case Enqueuing(d) => EnqueuedTasks(s, d);
    case _ => SessionRequestsKeepTasks(s, q);
  }

  /** A task becomes acknowledged in one way only: by the token of its newest lease while that lease
      is in force, and only when all earlier tasks of its device are acknowledged. */
  lemma OnlyCurrentLeaseAcknowledges(s: Server, q: Request, i: nat)
    requires ServerInv(s) && i < |s.tasks| && i < |Serve(s, q).tasks|
    requires !s.tasks[i].acknowledged && Serve(s, q).tasks[i].acknowledged
    ensures q.AckRequest? && q.sessionId in s.sessions && s.sessions[q.sessionId].scope == s.tasks[i].dispatch.scope
    ensures s.tasks[i].lease.Some? && s.tasks[i].lease.value.leaseToken == q.leaseToken && LeaseInForce(s.tasks[i], q.now)
    ensures i == FirstPending(s.tasks, s.tasks[i].dispatch.scope)
  {
    hide TasksSound, TasksDistinct, TokensDistinct, KeysLead, KeysOwned, SessionsInv, QueueOrdered, DevicesInv;
    hide Acknowledge, LeaseInForce, FirstPending;
    if !q.AckRequest? {
      hide Serve;
      OtherRequestsAcknowledgeNothing(s, q, i);
    } else {
      AcknowledgedTasks(s, q.sessionId, q.leaseToken, q.taskId, q.now);
      LeasedPendingIsFirst(s.tasks, i);
    }
  }

  lemma LeasedPendingIsFirst(tasks: seq<Task>, i: nat)
    requires QueueOrdered(tasks) && i < |tasks|
    ensures tasks[i].lease.Some? && !tasks[i].acknowledged ==> FirstPending(tasks, tasks[i].dispatch.scope) == i
  {
  }

  lemma OtherRequestsKeepLeases(s: Server, q: Request, i: nat)
    requires !q.PollRequest? && i < |s.tasks| && i < |Serve(s, q).tasks|
    ensures Serve(s, q).tasks[i].lease == s.tasks[i].lease
  {
    hide FinishOpen, IssueChallenge, RegisterDevice, Poll, Enqueue, Acknowledge;
    match q
    case AckRequest(sessionId, leaseToken, taskId, now) => AcknowledgedTasks(s, sessionId, leaseToken, taskId, now);
    case Enqueuing(d) => EnqueuedTasks(s, d);
    case _ => SessionRequestsKeepTasks(s, q);
  }

  /** A lease is replaced only by a poll, only for the first pending task of the session's device and
      only when the old one is not in force; the token it carries was never given out before. */
  lemma NewLeaseHasNewToken(s: Server, q: Request, i: nat)
    requires i < |s.tasks| && i < |Serve(s, q).tasks| && Serve(s, q).tasks[i].lease != s.tasks[i].lease
    ensures q.PollRequest? && !LeaseInForce(s.tasks[i], q.now) && i == FirstPending(s.tasks, s.tasks[i].dispatch.scope)
    ensures Serve(s, q).tasks[i].lease.Some? && Serve(s, q).tasks[i].lease.value.leaseToken !in s.issued
    ensures Serve(s, q).tasks[i].lease.value.leaseToken in Serve(s, q).issued
  {
    hide Serve;
    if q.PollRequest? {
      PolledTask(s, q, i);
    } else {
      OtherRequestsKeepLeases(s, q, i);
    }
  }

  lemma PolledTask(s: Server, q: Request, i: nat)
    requires q.PollRequest? && i < |s.tasks| && i < |Serve(s, q).tasks| && Serve(s, q).tasks[i].lease != s.tasks[i].lease
    ensures !LeaseInForce(s.tasks[i], q.now) && i == FirstPending(s.tasks, s.tasks[i].dispatch.scope)
    ensures Serve(s, q).tasks[i].lease.Some? && Serve(s, q).tasks[i].lease.value.leaseToken !in s.issued
    ensures Serve(s, q).tasks[i].lease.value.leaseToken in Serve(s, q).issued
  {
    hide TokenShaped, RegisterDevice, IssueChallenge, FinishOpen, Enqueue, Acknowledge, Poll, LeaseInForce;
    PollTasks(s, q.sessionId, q.now, q.ttl, q.token);
    var issued := Serve(s, q).issued;
    assert issued == s.issued + [q.token] ==> issued[|s.issued|] == q.token;
  }

  // ---- Opening a session ----

  /** The proof answers a stored challenge of its device in time. */
  predicate Answers(s: Server, proof: Proof, now: Millis) {
    && proof.schemaVersion == 1 && proof.algorithm == "ed25519" && proof.keyId != "" && proof.signature != ""
    && proof.challengeId in s.challenges && s.challenges[proof.challengeId].scope.deviceId == proof.deviceId
    && now < s.challenges[proof.challengeId].expiresAt
  }

  /** `openSession` reaches its signature check exactly for a proof that answers a challenge, with that
      challenge and the registered device it was issued for; that device is never unavailable. */
  lemma BeginOpenMeans(s: Server, proof: Proof, now: Millis)
    requires ServerInv(s)
    ensures BeginOpen(s, proof, now).Ok? <==> Answers(s, proof, now)
    ensures BeginOpen(s, proof, now) != Err(DeviceUnavailable)
    ensures BeginOpen(s, proof, now).Ok? ==>
      var (challenge, device) := BeginOpen(s, proof, now).value;
      && challenge.challengeId == proof.challengeId && challenge == s.challenges[proof.challengeId]
      && challenge.scope in s.devices && device == s.devices[challenge.scope]
      && device.scope == challenge.scope && device.scope.deviceId == proof.deviceId && device.registered
  {
    hide SessionsInv, QueueInv;
  }

  /** A verified proof opens a session whatever else was served while the signature was checked. It is then
      the one active session of its device, it can act until it expires, and the challenge is gone. */
  lemma VerifiedProofOpensOneSession(s: Server, proof: Proof, begun: Millis, between: seq<Request>, now: Millis, ttl: int, token: Id)
    requires ServerInv(s) && Answers(s, proof, begun)
    requires TtlValid(ttl) && Drawable(ServeAll(s, between), token)
    ensures BeginOpen(s, proof, begun).Ok?
    ensures var (challenge, device) := BeginOpen(s, proof, begun).value;
            var (after, r) := FinishOpen(ServeAll(s, between), challenge, device, true, now, ttl, token);
            && ServerInv(after) && r == Ok(Session(token, device.scope, now, now + ttl, Active))
            && token in after.sessions && after.sessions[token] == r.value && proof.challengeId !in after.challenges
            && (forall id | id in after.sessions && after.sessions[id].scope == device.scope :: after.sessions[id].state == Active <==> id == token)
            && (forall later | later < now + ttl :: ActiveSession(after, token, later) == (after, r))
  {
    hide BeginOpen, Answers, ServerInv, TokenShaped, ActiveSession;
    BeginOpenMeans(s, proof, begun);
    HistoryKeepsInvariant(s, between);
    var (challenge, device) := BeginOpen(s, proof, begun).value;
    FinishOpensOne(ServeAll(s, between), challenge, device, now, ttl, token);
  }

  lemma FinishOpensOne(s: Server, challenge: Challenge, device: Device, now: Millis, ttl: int, token: Id)
    requires ServerInv(s) && TtlValid(ttl) && Drawable(s, token)
    ensures var (after, r) := FinishOpen(s, challenge, device, true, now, ttl, token);
            && ServerInv(after) && r == Ok(Session(token, device.scope, now, now + ttl, Active))
            && token in after.sessions && after.sessions[token] == r.value && challenge.challengeId !in after.challenges
            && (forall id | id in after.sessions && after.sessions[id].scope == device.scope :: after.sessions[id].state == Active <==> id == token)
            && (forall later | later < now + ttl :: ActiveSession(after, token, later) == (after, r))
  {
    hide QueueInv, DevicesInv, TokenShaped, Forward;
    FinishOpenInv(s, challenge, device, true, now, ttl, token);
    var after := FinishOpen(s, challenge, device, true, now, ttl, token).0;
    forall id | id in after.sessions && after.sessions[id].scope == device.scope && after.sessions[id].state == Active
      ensures id == token
    {
      OneActiveSession(after, id, token);
    }
  }

  /** A verified opening of the challenge. */
  predicate Uses(q: Request, challengeId: Id) {
    q.OpeningDone? && q.verified && TtlValid(q.ttl) && q.challenge.challengeId == challengeId
  }

  lemma PollKeepsChallenges(s: Server, sessionId: Id, now: Millis, ttl: int, token: Id)
    ensures Poll(s, sessionId, now, ttl, token).0.challenges == s.challenges
  {
    hide ActiveSession, Drawable, LeaseInForce, FirstPending, NewLease;
    ActiveSessionAlone(s, sessionId, now);
  }

  lemma IssueKeepsChallenges(s: Server, scope: Scope, now: Millis, ttl: int, idToken: Id, nonceToken: Id, id: Id)
    requires id in s.issued
    ensures var after := IssueChallenge(s, scope, now, ttl, idToken, nonceToken).0;
            id in after.issued && (id in after.challenges <==> id in s.challenges)
  {
    hide TokenShaped;
  }

  lemma SupersedeAlone(s: Server, scope: Scope)
    ensures Supersede(s, scope) == s.(sessions := Supersede(s, scope).sessions)
  {
  }

  lemma OpeningChallenges(s: Server, q: Request, id: Id)
    requires q.OpeningDone? && id in s.issued
    ensures id in Serve(s, q).issued
    ensures id in Serve(s, q).challenges <==> id in s.challenges && !Uses(q, id)
  {
    hide Drawable, Supersede, RegisterDevice, IssueChallenge, Enqueue, Poll, Acknowledge;
    SupersedeAlone(s.(challenges := s.challenges - {q.challenge.challengeId}), q.device.scope);
  }

  lemma ChallengeAfter(s: Server, q: Request, id: Id)
    requires id in s.issued
    ensures id in Serve(s, q).issued
    ensures id in Serve(s, q).challenges <==> id in s.challenges && !Uses(q, id)
  {
    hide Poll, Acknowledge, TaskIndex, IssueChallenge, FinishOpen;
    match q
    case PollRequest(sessionId, now, ttl, token) =>
      PollTasks(s, sessionId, now, ttl, token);
      PollKeepsChallenges(s, sessionId, now, ttl, token);
    case AckRequest(sessionId, leaseToken, taskId, now) => AcknowledgedTasks(s, sessionId, leaseToken, taskId, now);
    case Challenging(scope, now, ttl, idToken, nonceToken) => IssueKeepsChallenges(s, scope, now, ttl, idToken, nonceToken, id);
    case OpeningDone(_, _, _, _, _, _) => OpeningChallenges(s, q, id);
    case _ =>
  }

  /** A challenge is there until an opening of it was verified, and never comes back after that. */
  lemma {:induction false} ChallengeIsUsedOnce(s: Server, requests: seq<Request>, id: Id)
    requires id in s.issued
    ensures id in ServeAll(s, requests).challenges <==> id in s.challenges && forall q :: q in requests ==> !Uses(q, id)
    decreases |requests|
  {
    hide Serve;
    if requests != [] {
      assert requests == [requests[0]] + requests[1..];
      ChallengeAfter(s, requests[0], id);
      ChallengeIsUsedOnce(Serve(s, requests[0]), requests[1..], id);
    }
  }

  /** An issued challenge can be answered until it expires, whatever else has been served in between, exactly
      while no opening of it was verified. */
  lemma IssuedChallengeIsAnswered(
      s: Server, scope: Scope, issued: Millis, ttl: int, idToken: Id, nonceToken: Id, between: seq<Request>, proof: Proof, now: Millis)
    requires ServerInv(s) && IssueChallenge(s, scope, issued, ttl, idToken, nonceToken).1.Ok?
    requires proof.schemaVersion == 1 && proof.algorithm == "ed25519" && proof.keyId != "" && proof.signature != ""
    requires proof.challengeId == idToken && proof.deviceId == scope.deviceId
    ensures var later := ServeAll(IssueChallenge(s, scope, issued, ttl, idToken, nonceToken).0, between);
            && (Answers(later, proof, now) <==> now < issued + ttl && forall q :: q in between ==> !Uses(q, idToken))
            && (Answers(later, proof, now) ==> later.challenges[idToken] == Challenge(idToken, scope, nonceToken, issued, issued + ttl))
  {
    hide SessionsInv, QueueInv, SessionsForward, QueueForward, DevicesForward, TokenShaped, TestTenant, ServeAll, Uses;
    var s1 := IssueChallenge(s, scope, issued, ttl, idToken, nonceToken).0;
    IssueChallengeInv(s, scope, issued, ttl, idToken, nonceToken);
    assert s1.issued[|s.issued|] == idToken;
    HistoryKeepsInvariant(s1, between);
    ChallengeIsUsedOnce(s1, between, idToken);
  }

  // ---- Polling and acknowledging together ----

  /** A poll of an active session gives nothing exactly when the device has no pending task; what it gives
      is afterwards the lease in force of the first pending task, for the device itself. */
  lemma PollAnswersFromTheQueue(s: Server, sessionId: Id, now: Millis, ttl: int, token: Id)
    requires ServerInv(s) && Poll(s, sessionId, now, ttl, token).1.Ok?
    ensures sessionId in s.sessions && s.sessions[sessionId].state == Active
    ensures var (after, r) := Poll(s, sessionId, now, ttl, token); var scope := s.sessions[sessionId].scope; var i := FirstPending(s.tasks, scope);
            if i == |s.tasks| then r.value == None
            else && r.value.Some? && |after.tasks| == |s.tasks| && after.tasks[i].lease == r.value && LeaseInForce(after.tasks[i], now)
                 && r.value.value.taskId == s.tasks[i].dispatch.taskId && r.value.value.plan == s.tasks[i].dispatch.plan
                 && r.value.value.deviceId == scope.deviceId
  {
    hide TokensDistinct, KeysLead, KeysOwned, SessionsInv, TokenShaped, QueueOrdered, TasksDistinct;
    var i := FirstPending(s.tasks, s.sessions[sessionId].scope);
    if i < |s.tasks| { assert TaskInv(s.tasks[i], s.issued); }
  }

  /** The lease a poll gives can be acknowledged until it or the session expires, and its task is then never
      offered again. */
  lemma PolledLeaseIsAcknowledged(s: Server, sessionId: Id, now: Millis, ttl: int, token: Id, later: Millis)
    requires ServerInv(s) && Poll(s, sessionId, now, ttl, token).1.Ok? && Poll(s, sessionId, now, ttl, token).1.value.Some?
    requires var lease := Poll(s, sessionId, now, ttl, token).1.value.value;
             lease.expiresAt.Some? && later < lease.expiresAt.value && later < s.sessions[sessionId].expiresAt
    ensures var (polled, r) := Poll(s, sessionId, now, ttl, token); var lease := r.value.value;
            var (after, ack) := Acknowledge(polled, sessionId, lease.leaseToken, lease.taskId, later);
            && ack == Ok(AckReceipt(lease.taskId, lease.planId, lease.deviceId, later))
            && FirstPending(after.tasks, s.sessions[sessionId].scope) > FirstPending(s.tasks, s.sessions[sessionId].scope)
  {
    hide ServerInv, Poll, Acknowledge, LeaseInForce;
    PollAnswersFromTheQueue(s, sessionId, now, ttl, token);
    var polled := Poll(s, sessionId, now, ttl, token).0;
    var scope := s.sessions[sessionId].scope;
    var i := FirstPending(s.tasks, scope);
    PollInv(s, sessionId, now, ttl, token);
    PollKeepsTheRest(s, sessionId, now, ttl, token);
    InForceLater(polled.tasks[i], later);
    AcknowledgeSucceeds(polled, sessionId, i, later);
    OthersNotPending(s.tasks, polled.tasks[i := polled.tasks[i].(acknowledged := true)], scope, i);
  }

  lemma PollKeepsTheRest(s: Server, sessionId: Id, now: Millis, ttl: int, token: Id)
    requires Poll(s, sessionId, now, ttl, token).1.Ok?
    ensures var after := Poll(s, sessionId, now, ttl, token).0;
            && after.sessions == s.sessions && after.activeByDevice == s.activeByDevice && |after.tasks| == |s.tasks|
            && forall k :: 0 <= k < |s.tasks| ==>
                 after.tasks[k].dispatch == s.tasks[k].dispatch && after.tasks[k].acknowledged == s.tasks[k].acknowledged
                 && (k != FirstPending(s.tasks, s.sessions[sessionId].scope) ==> after.tasks[k] == s.tasks[k])
  {
    hide TokenShaped;
  }

  lemma AcknowledgeSucceeds(s: Server, sessionId: Id, i: nat, now: Millis)
    requires ServerInv(s) && i < |s.tasks| && s.tasks[i].lease.Some? && LeaseInForce(s.tasks[i], now)
    requires sessionId in s.sessions && s.sessions[sessionId].state == Active && now < s.sessions[sessionId].expiresAt
    requires s.tasks[i].dispatch.scope == s.sessions[sessionId].scope
    ensures var lease := s.tasks[i].lease.value;
            var (after, ack) := Acknowledge(s, sessionId, lease.leaseToken, s.tasks[i].dispatch.taskId, now);
            && after.tasks == s.tasks[i := s.tasks[i].(acknowledged := true)]
            && ack == Ok(AckReceipt(s.tasks[i].dispatch.taskId, lease.planId, s.tasks[i].dispatch.scope.deviceId, now))
  {
    hide TokensDistinct, KeysLead, KeysOwned, QueueOrdered, TasksSound, TasksDistinct, TaskIndex, LeaseInForce;
    FirstOfItsKey(s.tasks, i);
  }

  lemma FirstOfItsKey(tasks: seq<Task>, i: nat)
    requires TasksDistinct(tasks) && i < |tasks|
    ensures TaskIndex(tasks, tasks[i].dispatch.scope.tenantId, tasks[i].dispatch.taskId) == i
  {
    var k := TaskIndex(tasks, tasks[i].dispatch.scope.tenantId, tasks[i].dispatch.taskId);
    assert k <= i;
    assert k < i ==> TaskKey(tasks[k]) == TaskKey(tasks[i]);
  }

  lemma InForceLater(task: Task, later: Millis)
    ensures LeaseInForce(task, later) <==> task.lease.Some? && task.lease.value.expiresAt.Some? && later < task.lease.value.expiresAt.value
  {
  }

  lemma OthersNotPending(before: seq<Task>, after: seq<Task>, scope: Scope, i: nat)
    requires i == FirstPending(before, scope) && i < |before| == |after|
    requires forall k :: 0 <= k <= i ==> k == i || after[k] == before[k]
    requires after[i].acknowledged
    ensures FirstPending(after, scope) > i
  {
    assert forall k :: 0 <= k < i ==> after[k] == before[k];
  }
}
