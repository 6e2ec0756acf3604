/** Client and coordinator together: one device runs execution cycles one at a time against the
    coordinator, while any other requests reach the coordinator in between. */
module DeviceProtocol {
  import opened Common
  import opened RunTypes
  import opened RunJournalSpec
  import opened RunJournalProofs
  import opened RunStoreSpec
  import opened ClientCycle
  import opened ClientCycleProofs
  import opened CoordinatorSpec
  import opened CoordinatorProofs

  datatype World = World(scope: Scope, server: Server, client: Client)

  /** The parameters of the server call whose answer a client event carries. */
  datatype ServerCall = NoCall | Called(sessionId: Id, now: Millis, ttl: int, token: Id)

  datatype WorldEvent = ServerServes(request: Request) | ClientActs(event: Event, call: ServerCall)

  ghost predicate InitialWorld(w: World) {
    w.server == EMPTY_SERVER && Initial(w.client) && w.client.deviceId == w.scope.deviceId
  }

  /** A call made with a session the coordinator opened for this device. */
  ghost predicate OwnSession(w: World, call: ServerCall) {
    call.Called? && call.sessionId in w.server.sessions && w.server.sessions[call.sessionId].scope == w.scope
  }

  /** The coordinator after answering the client event, if that is its answer. */
  ghost predicate Answered(w: World, e: Event, call: ServerCall, server': Server) {
    match e
    case Started(kind, _, _) => kind == Execute && server' == w.server
    case NothingPolled => OwnSession(w, call) && Poll(w.server, call.sessionId, call.now, call.ttl, call.token) == (server', Ok(None))
    case LeasePolled(lease, _) =>
      OwnSession(w, call) && Poll(w.server, call.sessionId, call.now, call.ttl, call.token) == (server', Ok(Some(lease)))
    case AckReceived(planId, deviceId, accepted) =>
      && OwnSession(w, call) && w.client.phase.Acknowledging? && accepted
      && var (s, r) := Acknowledge(w.server, call.sessionId, w.client.phase.lease.leaseToken, w.client.phase.lease.taskId, call.now);
         s == server' && r.Ok? && r.value.planId == planId && r.value.deviceId == deviceId
    case _ => server' == w.server
  }

  /** A request may also take effect without the client seeing the answer: the coordinator serves it
      and the client's cycle dies. */
  ghost predicate WorldStep(w: World, e: WorldEvent, w': World) {
    && w'.scope == w.scope
    && match e
       case ServerServes(q) => w'.client == w.client && w'.server == Serve(w.server, q)
       case ClientActs(event, call) => Step(w.client, event, w'.client) && Answered(w, event, call, w'.server)
  }

  ghost predicate IsWorldRun(worlds: seq<World>, events: seq<WorldEvent>) {
    && |worlds| == |events| + 1
    && forall i | 0 <= i < |events| :: WorldStep(worlds[i], events[i], worlds[i + 1])
  }

  // ---- The invariant ----

  /** Accepted and not yet synced. */
  predicate Live(state: RunState) {
    state == Accepted || state == Running || state == Paused || state == CompletedPendingSync
  }

  /** Past the local acceptance. */
  predicate Taken(state: RunState) {
    state != Leased
  }

  ghost predicate LiveIn(table: Table, t: Id) {
    t in table && Live(table[t].run.state)
  }

  ghost predicate TakenIn(table: Table, t: Id) {
    t in table && Taken(table[t].run.state)
  }

  ghost predicate NoneLive(table: Table) {
    forall t :: !LiveIn(table, t)
  }

  ghost predicate SameTaken(table: Table, j: Journal) {
    forall t | t in j.runs && Taken(j.runs[t].run.state) :: TakenIn(table, t)
  }

  /** The task's place in the coordinator's enqueue order. */
  function Place(s: Server, scope: Scope, t: Id): nat {
    TaskIndex(s.tasks, scope.tenantId, t)
  }

  ghost predicate Queued(s: Server, scope: Scope, t: Id) {
    Place(s, scope, t) < |s.tasks| && s.tasks[Place(s, scope, t)].dispatch.scope == scope
  }

  ghost predicate Acked(s: Server, scope: Scope, t: Id) {
    Queued(s, scope, t) && s.tasks[Place(s, scope, t)].acknowledged
  }

  /** The table against the coordinator: what was taken was acknowledged, at most one task is live, and
      nothing taken was enqueued after it. */
  ghost predicate TablesAgree(s: Server, scope: Scope, table: Table) {
    && (forall t | TakenIn(table, t) :: Acked(s, scope, t))
    && (forall t, u | LiveIn(table, t) && LiveIn(table, u) :: t == u)
    && (forall t, u | LiveIn(table, t) && TakenIn(table, u) :: Place(s, scope, u) <= Place(s, scope, t))
  }

  ghost predicate InvocationsOrdered(s: Server, scope: Scope, table: Table, invocations: seq<Invocation>) {
    && (forall i | 0 <= i < |invocations| :: TakenIn(table, invocations[i].taskId))
    && (forall i, k | 0 <= i < k < |invocations| :: Place(s, scope, invocations[i].taskId) <= Place(s, scope, invocations[k].taskId))
  }

  /** A task offered by a poll comes after everything taken so far. */
  ghost predicate Offered(s: Server, scope: Scope, table: Table, t: Id) {
    && Queued(s, scope, t) && NoneLive(table) && !TakenIn(table, t)
    && forall u | TakenIn(table, u) :: Place(s, scope, u) < Place(s, scope, t)
  }

  ghost predicate PhaseAgrees(s: Server, scope: Scope, table: Table, phase: Phase) {
    && (!phase.Idle? ==> phase.cycle.kind == Execute)
    && match phase
       case Idle => true
       case Opening(_) => true
       case Restoring(_, offer) => offer.None?
       case Polling(_, restored) => restored.Some? && NoneLive(table) && SameTaken(table, restored.value)
       case Acknowledging(_, _, lease) => Offered(s, scope, table, lease.taskId)
       case Executing(_, _, t) => LiveIn(table, t)
       case Submitting(_, _, t, _) => LiveIn(table, t)
       case Saving(_, _, cp, next) =>
         match next
         case ThenAcknowledge(_) => Offered(s, scope, table, cp.run.taskId) && cp.run.state == Leased
         case ThenAccepted(_) => Offered(s, scope, table, cp.run.taskId) && Acked(s, scope, cp.run.taskId)
         case _ => LiveIn(table, cp.run.taskId)
  }

  ghost predicate WorldInv(w: World) {
    && ServerInv(w.server) && ClientInv(w.client) && w.client.deviceId == w.scope.deviceId
    && TablesAgree(w.server, w.scope, w.client.table)
    && InvocationsOrdered(w.server, w.scope, w.client.table, w.client.history.invocations)
    && PhaseAgrees(w.server, w.scope, w.client.table, w.client.phase)
  }

  /** The part of the invariant that relates client and coordinator. */
  ghost predicate Agree(s: Server, scope: Scope, c: Client) {
    && TablesAgree(s, scope, c.table)
    && InvocationsOrdered(s, scope, c.table, c.history.invocations)
    && PhaseAgrees(s, scope, c.table, c.phase)
  }

  // ---- Coordinator steps ----

  lemma PlaceIsStable(s: Server, s': Server, scope: Scope, t: Id)
    requires QueueForward(s.tasks, s'.tasks) && Place(s, scope, t) < |s.tasks|
    ensures Place(s', scope, t) == Place(s, scope, t)
    ensures Queued(s, scope, t) ==> Queued(s', scope, t)
    ensures Acked(s, scope, t) ==> Acked(s', scope, t)
  {
    var i, k := Place(s, scope, t), Place(s', scope, t);
    assert TaskForward(s.tasks[i], s'.tasks[i]);
    assert k <= i;
    assert TaskForward(s.tasks[k], s'.tasks[k]);
  }

  lemma ServerMovesOn(s: Server, s': Server, scope: Scope, c: Client)
    requires QueueForward(s.tasks, s'.tasks) && Agree(s, scope, c)
    ensures Agree(s', scope, c)
  {
    hide Place, QueueForward;
    forall t | Queued(s, scope, t)
      ensures Place(s', scope, t) == Place(s, scope, t) && Queued(s', scope, t)
      ensures Acked(s, scope, t) ==> Acked(s', scope, t)
    {
      PlaceIsStable(s, s', scope, t);
    }
    assert forall t | LiveIn(c.table, t) :: TakenIn(c.table, t);
    assert TablesAgree(s', scope, c.table);
    assert forall i | 0 <= i < |c.history.invocations| :: Queued(s, scope, c.history.invocations[i].taskId);
    assert InvocationsOrdered(s', scope, c.table, c.history.invocations);
    assert forall t | Offered(s, scope, c.table, t) :: Offered(s', scope, c.table, t);
  }

  /** What a poll offers has not been taken and comes after everything taken. */
  lemma PollOffers(w: World, call: ServerCall, lease: Lease)
    requires ServerInv(w.server) && OwnSession(w, call)
    requires Poll(w.server, call.sessionId, call.now, call.ttl, call.token).1 == Ok(Some(lease))
    requires TablesAgree(w.server, w.scope, w.client.table) && NoneLive(w.client.table)
    ensures Offered(w.server, w.scope, w.client.table, lease.taskId)
  {
    hide TasksSound, TokensDistinct, KeysLead, KeysOwned, SessionsInv, TokenShaped;
    var tasks := w.server.tasks;
    var i := FirstPending(tasks, w.scope);
    PolledLease(w.server, call, w.scope, lease);
    FirstOfItsKey(tasks, i);
    forall u | TakenIn(w.client.table, u) ensures Place(w.server, w.scope, u) < i {
      assert Acked(w.server, w.scope, u);
    }
  }

  lemma PolledLease(s: Server, call: ServerCall, scope: Scope, lease: Lease)
    requires ServerInv(s) && call.Called? && call.sessionId in s.sessions && s.sessions[call.sessionId].scope == scope
    requires Poll(s, call.sessionId, call.now, call.ttl, call.token).1 == Ok(Some(lease))
    ensures var i := FirstPending(s.tasks, scope); i < |s.tasks| && s.tasks[i].dispatch.taskId == lease.taskId
  {
    hide TokensDistinct, KeysLead, KeysOwned, SessionsInv, TokenShaped, QueueOrdered, TasksDistinct;
    var i := FirstPending(s.tasks, scope);
    if i < |s.tasks| { assert TaskInv(s.tasks[i], s.issued); }
  }

  lemma AckAcknowledges(w: World, call: ServerCall, leaseToken: Id, taskId: Id)
    requires ServerInv(w.server) && OwnSession(w, call)
    requires Acknowledge(w.server, call.sessionId, leaseToken, taskId, call.now).1.Ok?
    ensures Acked(Acknowledge(w.server, call.sessionId, leaseToken, taskId, call.now).0, w.scope, taskId)
  {
    hide TasksSound, TokensDistinct, KeysLead, KeysOwned, SessionsInv, QueueOrdered;
    var s' := Acknowledge(w.server, call.sessionId, leaseToken, taskId, call.now).0;
    var i := TaskIndex(w.server.tasks, w.scope.tenantId, taskId);
    AcknowledgeInv(w.server, call.sessionId, leaseToken, taskId, call.now);
    PlaceIsStable(w.server, s', w.scope, taskId);
    assert s'.tasks[i].acknowledged;
  }

  // ---- Client steps ----

  /** What the client segments rely on. */
  ghost predicate Base(s: Server, scope: Scope, c: Client) {
    TablesAgree(s, scope, c.table) && InvocationsOrdered(s, scope, c.table, c.history.invocations)
  }

  lemma ResumeAgrees(s: Server, scope: Scope, c: Client, cycle: Cycle, j: Journal, t: Id)
    requires Base(s, scope, c) && cycle.kind == Execute && Keyed(j) && LiveIn(c.table, t)
    ensures Agree(s, scope, Resume(c, cycle, j, t))
  {
    hide TablesAgree, InvocationsOrdered;
    TransitionCheckpoint(j, t, {Accepted, Paused}, Running, cycle.now);
  }

  lemma AfterRestoreAgrees(s: Server, scope: Scope, c: Client, cycle: Cycle, rows: seq<Checkpoint>)
    requires Base(s, scope, c) && cycle.kind == Execute && TableInv(c.table, c.deviceId)
    requires Enumerates(rows, c.table) && Restore(rows, cycle.now).Ok?
    ensures Agree(s, scope, AfterRestore(c, cycle, Restore(rows, cycle.now).value, None))
  {
    hide TablesAgree, InvocationsOrdered, WellSealed, Enumerates, TableInv;
    var j := Restore(rows, cycle.now).value;
    RestoreOfTable(c.table, c.deviceId, rows, cycle.now);
    var unfinished := FirstIn(j.order, j.runs, UNFINISHED);
    if unfinished.Some? {
      ResumeAgrees(s, scope, c, cycle, j, unfinished.value);
    } else {
      forall t | t in c.table ensures !Live(c.table[t].run.state) {
        assert t in j.order && j.runs[t] == Restored(c.table[t], cycle.now);
      }
    }
  }

  lemma AcceptOfferAgrees(s: Server, scope: Scope, c: Client, cycle: Cycle, j: Journal, offer: Offer)
    requires Base(s, scope, c) && cycle.kind == Execute && Keyed(j)
    requires SameTaken(c.table, j) && Offered(s, scope, c.table, offer.lease.taskId)
    ensures Agree(s, scope, AcceptOffer(c, cycle, j, offer))
  {
    hide TablesAgree, InvocationsOrdered, Offered, LeaseError;
    assert !TakenIn(c.table, offer.lease.taskId) by { NotTaken(s, scope, c.table, offer.lease.taskId); }
  }

  lemma NotTaken(s: Server, scope: Scope, table: Table, t: Id)
    requires Offered(s, scope, table, t)
    ensures !TakenIn(table, t) && NoneLive(table)
  {
  }

  /** Saving an accepted task makes it the one live task, after everything taken before. */
  lemma AcceptedSaveAgrees(s: Server, scope: Scope, table: Table, invocations: seq<Invocation>, cp: Checkpoint)
    requires TablesAgree(s, scope, table) && InvocationsOrdered(s, scope, table, invocations)
    requires Offered(s, scope, table, cp.run.taskId) && Acked(s, scope, cp.run.taskId) && cp.run.state == Accepted
    ensures var table' := table[cp.run.taskId := cp];
            TablesAgree(s, scope, table') && InvocationsOrdered(s, scope, table', invocations) && LiveIn(table', cp.run.taskId)
  {
    hide Queued, Acked, Place;
    var t := cp.run.taskId;
    var table' := table[t := cp];
    forall u ensures TakenIn(table', u) <==> u == t || TakenIn(table, u) {
    }
    forall u ensures LiveIn(table', u) <==> u == t {
      assert !LiveIn(table, u);
    }
  }

  /** Saving a leased task changes nothing that is taken or live. */
  lemma LeasedSaveAgrees(s: Server, scope: Scope, table: Table, invocations: seq<Invocation>, cp: Checkpoint)
    requires TablesAgree(s, scope, table) && InvocationsOrdered(s, scope, table, invocations)
    requires Offered(s, scope, table, cp.run.taskId) && cp.run.state == Leased
    ensures var table' := table[cp.run.taskId := cp];
            TablesAgree(s, scope, table') && InvocationsOrdered(s, scope, table', invocations) && Offered(s, scope, table', cp.run.taskId)
  {
    hide Queued, Acked, Place;
    var table' := table[cp.run.taskId := cp];
    forall u ensures (TakenIn(table', u) <==> TakenIn(table, u)) && (LiveIn(table', u) <==> LiveIn(table, u)) {
      assert !LiveIn(table, u);
    }
  }

  /** Saving the live task leaves the same tasks taken and makes no other task live. */
  lemma LiveSaveAgrees(s: Server, scope: Scope, table: Table, invocations: seq<Invocation>, cp: Checkpoint)
    requires TablesAgree(s, scope, table) && InvocationsOrdered(s, scope, table, invocations)
    requires LiveIn(table, cp.run.taskId) && Taken(cp.run.state)
    ensures var table' := table[cp.run.taskId := cp];
            TablesAgree(s, scope, table') && InvocationsOrdered(s, scope, table', invocations)
  {
    hide Queued, Acked, Place;
    var table' := table[cp.run.taskId := cp];
    forall u ensures (TakenIn(table', u) <==> TakenIn(table, u)) && (LiveIn(table', u) ==> LiveIn(table, u)) {
    }
  }

  lemma SavedAgrees(s: Server, scope: Scope, c: Client, c': Client)
    requires ClientInv(c) && Agree(s, scope, c) && c.phase.Saving? && Next(c, Saved) == Some(c')
    ensures Agree(s, scope, c')
  {
    hide WellSealed, TablesAgree, InvocationsOrdered, Offered, Acked, HistoryInv, TableInv, JournalAhead, SaveRunCheckpoint;
    var Saving(cycle, j, cp, next) := c.phase;
    var (table, r) := SaveRunCheckpoint(c.table, c.deviceId, cp, cycle.now);
    SaveResult(c);
    if r.Ok? {
      AheadIsKeyed(c.table, c.deviceId, j, cycle.now);
      var c1 := c.(table := table);
      var invocations := c.history.invocations;
      match next
      case ThenAcknowledge(lease) => LeasedSaveAgrees(s, scope, c.table, invocations, cp);
      case ThenAccepted(t) =>
        AcceptedSaveAgrees(s, scope, c.table, invocations, cp);
        ResumeAgrees(s, scope, c1, cycle, j, t);
      case ThenExecute(t) => LiveSaveAgrees(s, scope, c.table, invocations, cp);
      case ThenThrow => LiveSaveAgrees(s, scope, c.table, invocations, cp);
      case ThenSubmit(t) => LiveSaveAgrees(s, scope, c.table, invocations, cp);
      case ThenFinish => LiveSaveAgrees(s, scope, c.table, invocations, cp);
    }
  }

  lemma SaveResult(c: Client)
    requires ClientInv(c) && c.phase.Saving?
    ensures var (table, r) := SaveRunCheckpoint(c.table, c.deviceId, c.phase.cp, c.phase.cycle.now);
            table == if r.Ok? then c.table[c.phase.cp.run.taskId := c.phase.cp] else c.table
  {
    hide HistoryInv;
    SaveOfContinuation(c.table, c.deviceId, c.phase.cp, c.phase.cycle.now);
  }

  lemma InvocationAgrees(s: Server, scope: Scope, table: Table, invocations: seq<Invocation>, v: Invocation)
    requires TablesAgree(s, scope, table) && InvocationsOrdered(s, scope, table, invocations) && LiveIn(table, v.taskId)
    ensures InvocationsOrdered(s, scope, table, invocations + [v])
  {
    hide Place, Acked;
  }

  lemma ExecutingAgrees(s: Server, scope: Scope, c: Client, cycle: Cycle, j: Journal, t: Id, e: Event)
    requires Base(s, scope, c) && cycle.kind == Execute && Keyed(j) && LiveIn(c.table, t)
    requires StepExecuting(c, cycle, j, t, e).Some?
    ensures Agree(s, scope, StepExecuting(c, cycle, j, t, e).value)
  {
    hide TablesAgree, InvocationsOrdered, PrivacyBounded;
    TransitionCheckpoint(j, t, {Running}, Paused, cycle.now);
    if e == ExecutorInvoked {
      InvocationAgrees(s, scope, c.table, c.history.invocations, Invocation(t, j.runs[t].run.executorId, j.runs[t].run.plan));
    } else if e.ExecutorReturned? {
      CompletedCheckpoint(j, t, e.output, cycle.now);
    }
  }

  lemma SubmittingAgrees(s: Server, scope: Scope, c: Client, cycle: Cycle, j: Journal, t: Id, sent: bool, e: Event)
    requires Base(s, scope, c) && cycle.kind == Execute && Keyed(j) && LiveIn(c.table, t)
    requires StepSubmitting(c, cycle, j, t, sent, e).Some?
    ensures Agree(s, scope, StepSubmitting(c, cycle, j, t, sent, e).value)
  {
    hide TablesAgree, InvocationsOrdered;
    TransitionCheckpoint(j, t, {CompletedPendingSync}, Synced, cycle.now);
  }

  /** The coordinator's answer is part of the step: first it moves on, then the client acts. */
  lemma ClientMovesOn(w: World, e: Event, call: ServerCall, w': World)
    requires WorldInv(w) && WorldStep(w, ClientActs(e, call), w')
    ensures Agree(w'.server, w.scope, w'.client)
  {
    hide WellSealed, HistoryInv, TableInv, JournalAhead, ServerInv, TablesAgree, InvocationsOrdered, Offered, Acked, OwnSession, Poll, Acknowledge,
         QueueForward, Restore, SaveRunCheckpoint;
    var c, s' := w.client, w'.server;
    AnswerMovesForward(w, e, call, s');
    ServerMovesOn(w.server, s', w.scope, c);
    if e != Died {
      match c.phase
      case Idle =>
      case Opening(_) =>
      case Restoring(cycle, _) =>
        if Restore(e.rows, cycle.now).Ok? { AfterRestoreAgrees(s', w.scope, c, cycle, e.rows); }
      case Polling(cycle, restored) => PollingAgrees(w, e, call, w');
      case Saving(_, _, _, _) => SavedAgrees(s', w.scope, c, w'.client);
      case Acknowledging(cycle, j, lease) => AcknowledgingAgrees(w, e, call, w');
      case Executing(cycle, j, t) =>
        AheadIsKeyed(c.table, c.deviceId, j, cycle.now);
        ExecutingAgrees(s', w.scope, c, cycle, j, t, e);
      case Submitting(cycle, j, t, sent) =>
        AheadIsKeyed(c.table, c.deviceId, j, cycle.now);
        SubmittingAgrees(s', w.scope, c, cycle, j, t, sent, e);
    }
  }

  lemma AnswerMovesForward(w: World, e: Event, call: ServerCall, server': Server)
    requires ServerInv(w.server) && Answered(w, e, call, server')
    ensures ServerInv(server') && QueueForward(w.server.tasks, server'.tasks)
  {
    hide ServerInv, QueueForward, Poll, Acknowledge;
    NothingChanges(w.server);
    match e
    case NothingPolled => PollInv(w.server, call.sessionId, call.now, call.ttl, call.token);
    case LeasePolled(_, _) => PollInv(w.server, call.sessionId, call.now, call.ttl, call.token);
    case AckReceived(_, _, _) => AcknowledgeInv(w.server, call.sessionId, w.client.phase.lease.leaseToken, w.client.phase.lease.taskId, call.now);
    case _ =>
  }

  lemma PollingAgrees(w: World, e: Event, call: ServerCall, w': World)
    requires WorldInv(w) && WorldStep(w, ClientActs(e, call), w') && w.client.phase.Polling? && e != Died
    requires Agree(w'.server, w.scope, w.client) && QueueForward(w.server.tasks, w'.server.tasks)
    ensures Agree(w'.server, w.scope, w'.client)
  {
    hide WellSealed, HistoryInv, TableInv, ServerInv, TablesAgree, InvocationsOrdered, Offered, Acked, Poll, QueueForward, AcceptOffer;
    var Polling(cycle, restored) := w.client.phase;
    if e.LeasePolled? && e.lease.deviceId == w.client.deviceId && !e.lease.externalWrites {
      PollOffers(w, call, e.lease);
      StillOffered(w.server, w'.server, w.scope, w.client, e.lease.taskId);
      AcceptOfferAgrees(w'.server, w.scope, w.client, cycle, restored.value, Offer(e.lease, e.executorId));
    }
  }

  lemma StillOffered(s: Server, s': Server, scope: Scope, c: Client, t: Id)
    requires QueueForward(s.tasks, s'.tasks) && TablesAgree(s, scope, c.table) && Offered(s, scope, c.table, t)
    ensures Offered(s', scope, c.table, t)
  {
    hide Place, QueueForward;
    forall u | Queued(s, scope, u) ensures Place(s', scope, u) == Place(s, scope, u) && Queued(s', scope, u) {
      PlaceIsStable(s, s', scope, u);
    }
  }

  lemma AcknowledgingAgrees(w: World, e: Event, call: ServerCall, w': World)
    requires WorldInv(w) && WorldStep(w, ClientActs(e, call), w') && w.client.phase.Acknowledging? && e != Died
    requires Agree(w'.server, w.scope, w.client)
    ensures Agree(w'.server, w.scope, w'.client)
  {
    hide WellSealed, HistoryInv, TableInv, ServerInv, TablesAgree, InvocationsOrdered, Offered, Acked, Acknowledge;
    var Acknowledging(cycle, j, lease) := w.client.phase;
    AckAcknowledges(w, call, lease.leaseToken, lease.taskId);
    AheadIsKeyed(w.client.table, w.client.deviceId, j, cycle.now);
    TransitionCheckpoint(j, lease.taskId, {Leased}, Accepted, cycle.now);
  }

  // ---- Whole runs ----

  lemma WorldStepKeepsInvariant(w: World, e: WorldEvent, w': World)
    requires WorldInv(w) && WorldStep(w, e, w')
    ensures WorldInv(w')
  {
    hide ServerInv, ClientInv, TablesAgree, InvocationsOrdered, PhaseAgrees, Serve, Answered, QueueForward, Step;
    match e
    case ServerServes(q) =>
      ServeKeepsInvariant(w.server, q);
      ServerMovesOn(w.server, w'.server, w.scope, w.client);
    case ClientActs(event, call) =>
      ClientMovesOn(w, event, call, w');
      StepKeepsInvariant(w.client, event, w'.client);
      AnswerMovesForward(w, event, call, w'.server);
      StepKeepsDevice(w.client, event, w'.client);
  }

  lemma StepKeepsDevice(c: Client, e: Event, c': Client)
    requires Step(c, e, c')
    ensures c'.deviceId == c.deviceId
  {
    hide Restore, SaveRunCheckpoint, LeaseError;
  }

  lemma {:induction false} WorldRunInvariant(worlds: seq<World>, events: seq<WorldEvent>, k: nat)
    requires IsWorldRun(worlds, events) && InitialWorld(worlds[0]) && k < |worlds|
    ensures WorldInv(worlds[k])
    decreases k
  {
    hide ServerInv, ClientInv, WorldStep;
    if k == 0 {
      EmptyServerInv();
      InitialInv(worlds[0].client);
    } else {
      WorldRunInvariant(worlds, events, k - 1);
      assert WorldStep(worlds[k - 1], events[k - 1], worlds[k]);
      WorldStepKeepsInvariant(worlds[k - 1], events[k - 1], worlds[k]);
    }
  }

  /** In every state of every run at most one stored task is accepted, running, paused or pending sync. */
  lemma AtMostOneLiveTask(worlds: seq<World>, events: seq<WorldEvent>, k: nat, t: Id, u: Id)
    requires IsWorldRun(worlds, events) && InitialWorld(worlds[0]) && k < |worlds|
    requires LiveIn(worlds[k].client.table, t) && LiveIn(worlds[k].client.table, u)
    ensures t == u
  {
    hide ServerInv, ClientInv, IsWorldRun;
    WorldRunInvariant(worlds, events, k);
  }

  /** Whenever an executor is invoked, the coordinator has already acknowledged that task for this
      device, and no task enqueued later has been executed before. */
  lemma ExecutionsFollowTheQueue(worlds: seq<World>, events: seq<WorldEvent>, k: nat)
    requires IsWorldRun(worlds, events) && InitialWorld(worlds[0]) && k < |worlds|
    ensures var w := worlds[k]; var done := w.client.history.invocations;
            && (forall i | 0 <= i < |done| :: Acked(w.server, w.scope, done[i].taskId))
            && (forall i, m | 0 <= i < m < |done| :: Place(w.server, w.scope, done[i].taskId) <= Place(w.server, w.scope, done[m].taskId))
  {
    hide ServerInv, ClientInv, IsWorldRun, Acked, Place;
    WorldRunInvariant(worlds, events, k);
  }

  lemma AcknowledgedBeforeExecution(worlds: seq<World>, events: seq<WorldEvent>, k: nat)
    requires IsWorldRun(worlds, events) && InitialWorld(worlds[0]) && k < |events|
    requires events[k].ClientActs? && events[k].event == ExecutorInvoked
    ensures var w := worlds[k];
            w.client.phase.Executing? && Acked(w.server, w.scope, w.client.phase.taskId)
            && forall t | LiveIn(w.client.table, t) :: t == w.client.phase.taskId
  {
    hide ServerInv, ClientInv, Acked, Place;
    WorldRunInvariant(worlds, events, k);
    var w := worlds[k];
    assert WorldStep(w, events[k], worlds[k + 1]);
    InvokedFromExecuting(w.client, worlds[k + 1].client);
    assert TakenIn(w.client.table, w.client.phase.taskId);
  }

  lemma InvokedFromExecuting(c: Client, c': Client)
    requires Next(c, ExecutorInvoked) == Some(c')
    ensures c.phase.Executing?
  {
  }
}
