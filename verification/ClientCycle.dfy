/** The two client cycles as one transition system. A step is what happens between two awaits; any
    await may instead end the cycle (`Died`: a crash or a thrown error), which drops the in-memory
    journal and keeps the durable table. Server and executor answers are arbitrary. */
module ClientCycle {
  import opened Common
  import opened RunTypes
  import opened RunJournalSpec
  import opened RunStoreSpec

  /** `AcceptOnly` is the inactive cycle that stops after accepting a lease; `Execute` is the
      no-effect execution cycle. */
  datatype CycleKind = AcceptOnly | Execute

  /** `attempt` is the task whose executor this cycle has invoked. */
  datatype Cycle = Cycle(kind: CycleKind, now: Millis, executors: set<Id>, attempt: Option<Id>)

  datatype AfterSave =
    | ThenAcknowledge(lease: Lease) | ThenAccepted(taskId: Id) | ThenExecute(taskId: Id)
    | ThenThrow | ThenSubmit(taskId: Id) | ThenFinish

  datatype Offer = Offer(lease: Lease, executorId: Id)

  datatype Phase =
    | Idle
    | Opening(cycle: Cycle)
    | Restoring(cycle: Cycle, offer: Option<Offer>)
    | Polling(cycle: Cycle, restored: Option<Journal>)
    | Saving(cycle: Cycle, journal: Journal, cp: Checkpoint, next: AfterSave)
    | Acknowledging(cycle: Cycle, journal: Journal, lease: Lease)
    | Executing(cycle: Cycle, journal: Journal, taskId: Id)
    | Submitting(cycle: Cycle, journal: Journal, taskId: Id, sent: bool)

  datatype Invocation = Invocation(taskId: Id, executorId: Id, plan: Plan)

  /** What the client has done so far, in order. `lost` holds the tasks whose executor had been
      invoked by a cycle that then ended early. */
  datatype History = History(invocations: seq<Invocation>, submissions: seq<RunResult>, lost: seq<Id>, aborted: nat)

  datatype Client = Client(deviceId: Id, table: Table, phase: Phase, history: History)

  datatype Event =
    | Started(kind: CycleKind, now: Millis, executors: set<Id>)
    | SessionOpened
    | RowsRead(rows: seq<Checkpoint>)
    | NothingPolled
    | LeasePolled(lease: Lease, executorId: Id)
    | Saved
    | AckReceived(planId: Id, deviceId: Id, accepted: bool)
    | ExecutorInvoked
    | ExecutorReturned(output: ExecutorOutput)
    | ExecutorThrew
    | ResultSent
    | ResultAccepted(taskId: Id, planId: Id, deviceId: Id)
    | Died

  ghost predicate Initial(c: Client) {
    c.table == map[] && c.phase == Idle && c.history == History([], [], [], 0)
  }

  function Finished(c: Client): Client {
    c.(phase := Idle)
  }

  function Aborted(c: Client, cycle: Cycle): Client {
    var h := c.history;
    c.(phase := Idle,
       history := h.(aborted := h.aborted + 1,
                     lost := if cycle.attempt.Some? then h.lost + [cycle.attempt.value] else h.lost))
  }

  /** The first task, in journal order, whose run is in one of the given states. */
  function FirstIn(order: seq<Id>, runs: map<Id, Checkpoint>, states: set<RunState>): (found: Option<Id>)
    ensures found.Some? ==> found.value in order && found.value in runs && runs[found.value].run.state in states
    ensures found.None? ==> forall id | id in order && id in runs :: runs[id].run.state !in states
  {
    if order == [] then None
    else if order[0] in runs && runs[order[0]].run.state in states then Some(order[0])
    else FirstIn(order[1..], runs, states)
  }

  const UNFINISHED := {Accepted, Paused, CompletedPendingSync}

  function AcceptOffer(c: Client, cycle: Cycle, j: Journal, offer: Offer): Client {
    var (next, r) := AcceptLease(j, offer.lease, offer.executorId, cycle.now);
    if r.Err? then Aborted(c, cycle)
    else c.(phase := Saving(cycle, next, r.value, ThenAcknowledge(offer.lease)))
  }

  function Resume(c: Client, cycle: Cycle, j: Journal, taskId: Id): Client {
    if taskId !in j.runs then Aborted(c, cycle)
    else
      var run := j.runs[taskId].run;
      if run.state == Accepted || run.state == Paused then
        if run.executorId !in cycle.executors then Aborted(c, cycle)
        else
          var (next, r) := Begin(j, taskId, cycle.now);
          if r.Err? then Aborted(c, cycle) else c.(phase := Saving(cycle, next, r.value, ThenExecute(taskId)))
      else Submit(c, cycle, j, taskId)
  }

  function Submit(c: Client, cycle: Cycle, j: Journal, taskId: Id): Client {
    if taskId in j.runs && j.runs[taskId].run.state == CompletedPendingSync && ResultForSync(j, taskId).Ok?
    then c.(phase := Submitting(cycle, j, taskId, false))
    else Aborted(c, cycle)
  }

  function AfterRestore(c: Client, cycle: Cycle, j: Journal, offer: Option<Offer>): Client {
    if offer.Some? then AcceptOffer(c, cycle, j, offer.value)
    else
      var unfinished := FirstIn(j.order, j.runs, UNFINISHED);
      if unfinished.Some? then Resume(c, cycle, j, unfinished.value)
      else c.(phase := Polling(cycle, Some(j)))
  }

  function PauseRun(c: Client, cycle: Cycle, j: Journal, taskId: Id): Client {
    var (next, r) := Pause(j, taskId, cycle.now);
    if r.Err? then Aborted(c, cycle) else c.(phase := Saving(cycle, next, r.value, ThenThrow))
  }

  function AfterSaved(c: Client, cycle: Cycle, j: Journal, next: AfterSave): Client {
    match next
    case ThenAcknowledge(lease) => c.(phase := Acknowledging(cycle, j, lease))
    case ThenAccepted(taskId) => if cycle.kind == AcceptOnly then Finished(c) else Resume(c, cycle, j, taskId)
    case ThenExecute(taskId) => c.(phase := Executing(cycle, j, taskId))
    case ThenThrow => Aborted(c, cycle)
    case ThenSubmit(taskId) => Submit(c, cycle, j, taskId)
    case ThenFinish => Finished(c)
  }

  function StepPolling(c: Client, cycle: Cycle, restored: Option<Journal>, e: Event): Option<Client> {
    match e
    case NothingPolled =>
      if restored.Some? && FirstIn(restored.value.order, restored.value.runs, {Leased}).Some? then Some(Aborted(c, cycle))
      else Some(Finished(c))
    case LeasePolled(lease, executorId) =>
      if lease.deviceId != c.deviceId || lease.externalWrites then Some(Aborted(c, cycle))
      else if restored.None? then Some(c.(phase := Restoring(cycle, Some(Offer(lease, executorId)))))
      else Some(AcceptOffer(c, cycle, restored.value, Offer(lease, executorId)))
    case _ => None
  }

  function StepExecuting(c: Client, cycle: Cycle, j: Journal, taskId: Id, e: Event): Option<Client> {
    if taskId !in j.runs then None
    else if cycle.attempt.None? then
      if e != ExecutorInvoked then None
      else
        var run := j.runs[taskId].run;
        Some(c.(phase := Executing(cycle.(attempt := Some(taskId)), j, taskId),
                history := c.history.(invocations := c.history.invocations + [Invocation(taskId, run.executorId, run.plan)])))
    else
      match e
      case ExecutorReturned(output) =>
        var (next, r) := CompletePendingSync(j, taskId, output, cycle.now);
        Some(if r.Err? then PauseRun(c, cycle, j, taskId) else c.(phase := Saving(cycle, next, r.value, ThenSubmit(taskId))))
      case ExecutorThrew => Some(PauseRun(c, cycle, j, taskId))
      case _ => None
  }

  function StepSubmitting(c: Client, cycle: Cycle, j: Journal, taskId: Id, sent: bool, e: Event): Option<Client> {
    match e
    case ResultSent =>
      var r := ResultForSync(j, taskId);
      if sent then None
      else if r.Err? then Some(Aborted(c, cycle))
      else Some(c.(phase := Submitting(cycle, j, taskId, true),
                   history := c.history.(submissions := c.history.submissions + [r.value])))
    case ResultAccepted(acceptedTask, planId, deviceId) =>
      if !sent || taskId !in j.runs then None
      else if acceptedTask != taskId || planId != j.runs[taskId].run.plan.planId || deviceId != j.runs[taskId].run.deviceId
      then Some(Aborted(c, cycle))
      else
        var (next, r) := MarkSynced(j, taskId, cycle.now);
        Some(if r.Err? then Aborted(c, cycle) else c.(phase := Saving(cycle, next, r.value, ThenFinish)))
    case _ => None
  }

  /** The state after an event, or `None` when the event cannot happen now. */
  function Next(c: Client, e: Event): Option<Client> {
    if e == Died then (if c.phase == Idle then None else Some(Aborted(c, c.phase.cycle)))
    else
      match c.phase
      case Idle => (match e
                    case Started(kind, now, executors) => Some(c.(phase := Opening(Cycle(kind, now, executors, None))))
                    case _ => None)
      case Opening(cycle) =>
        if e != SessionOpened then None
        else Some(c.(phase := if cycle.kind == AcceptOnly then Polling(cycle, None) else Restoring(cycle, None)))
      case Restoring(cycle, offer) => (match e
                                       case RowsRead(rows) =>
                                         var r := Restore(rows, cycle.now);
                                         Some(if r.Err? then Aborted(c, cycle) else AfterRestore(c, cycle, r.value, offer))
                                       case _ => None)
      case Polling(cycle, restored) => StepPolling(c, cycle, restored, e)
      case Saving(cycle, j, cp, next) =>
        if e != Saved then None
        else
          var (table, r) := SaveRunCheckpoint(c.table, c.deviceId, cp, cycle.now);
          Some(if r.Err? then Aborted(c, cycle) else AfterSaved(c.(table := table), cycle, j, next))
      case Acknowledging(cycle, j, lease) => (match e
                                              case AckReceived(planId, deviceId, accepted) =>
                                                if planId != lease.planId || deviceId != lease.deviceId || !accepted then Some(Aborted(c, cycle))
                                                else
                                                  var (next, r) := MarkLeaseAcknowledged(j, lease.taskId, cycle.now);
                                                  Some(if r.Err? then Aborted(c, cycle)
                                                       else c.(phase := Saving(cycle, next, r.value, ThenAccepted(lease.taskId))))
                                              case _ => None)
      case Executing(cycle, j, taskId) => StepExecuting(c, cycle, j, taskId, e)
      case Submitting(cycle, j, taskId, sent) => StepSubmitting(c, cycle, j, taskId, sent, e)
  }

  /** A possible step: the rows a restore reads are those of the table. */
  ghost predicate Step(c: Client, e: Event, c': Client) {
    Next(c, e) == Some(c') && (e.RowsRead? ==> Enumerates(e.rows, c.table))
  }

  /** `states` is a run of the client: it starts in `states[0]` and each step is possible. */
  ghost predicate IsRun(states: seq<Client>, events: seq<Event>) {
    && |states| == |events| + 1
    && forall i | 0 <= i < |events| :: Step(states[i], events[i], states[i + 1])
  }
}
