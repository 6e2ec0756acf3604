/** Where everything the client stores comes from: every checkpoint goes back to a lease it polled, every step of its
    state to an answer from outside, and every result to what an executor returned. */
module ClientOrigins {
  import opened Common
  import opened RunTypes
  import opened RunJournalSpec
  import opened RunJournalProofs
  import opened RunStoreSpec
  import opened ClientCycle
  import opened ClientCycleProofs
  import opened ClientRuns

  // ---- Evidence ----

  /** The answers from outside that a stored checkpoint may rest on. */
  datatype Kind = ByLease | ByAcknowledgement | ByExecutor | ByAcceptance

  /** The checkpoints that rest on an answer of this kind. */
  predicate Expects(kind: Kind, cp: Checkpoint) {
    match kind
    case ByLease => true
    case ByAcknowledgement => cp.run.state != Leased
    case ByExecutor => cp.run.result.Some?
    case ByAcceptance => cp.run.state == Synced && cp.run.result.Some?
  }

  /** The result is what the executor gave, for this task, plan and device, at this time. */
  predicate ResultIs(r: RunResult, output: ExecutorOutput, run: Run, now: Millis) {
    && r.outcome == output.outcome && r.summaryCode == output.summaryCode && r.artifactDigests == output.artifactDigests
    && r.taskId == run.taskId && r.planId == run.plan.planId && r.deviceId == run.deviceId && r.completedAt == Some(now)
  }

  /** In the state `c` the event `e` is the answer of this kind that `cp` rests on. */
  predicate Evidence(kind: Kind, c: Client, e: Event, cp: Checkpoint) {
    var run := cp.run;
    match kind
    case ByLease =>
      && c.phase.Polling? && e.LeasePolled? && e.lease.taskId == run.taskId && e.lease.plan == run.plan
      && e.lease.deviceId == run.deviceId == c.deviceId && !e.lease.externalWrites && e.executorId == run.executorId
    case ByAcknowledgement =>
      && c.phase.Acknowledging? && c.phase.lease.taskId == run.taskId
      && e == AckReceived(run.plan.planId, run.deviceId, true)
    case ByExecutor =>
      && c.phase.Executing? && c.phase.taskId == run.taskId && c.phase.cycle.attempt == Some(run.taskId)
      && e.ExecutorReturned? && run.result.Some? && ResultIs(run.result.value, e.output, run, c.phase.cycle.now)
    case ByAcceptance =>
      && c.phase.Submitting? && c.phase.taskId == run.taskId && c.phase.sent
      && e == ResultAccepted(run.taskId, run.plan.planId, run.deviceId)
      && run.result.Some? && run.result.value in c.history.submissions
  }

  /** There was such an answer before the k-th state. */
  ghost predicate Seen(states: seq<Client>, events: seq<Event>, k: nat, kind: Kind, cp: Checkpoint)
    requires k <= |events| < |states|
  {
    exists i :: 0 <= i < k && Evidence(kind, states[i], events[i], cp)
  }

  // ---- What the client holds ----

  function JournalOf(phase: Phase): map<Id, Checkpoint> {
    match phase
    case Polling(_, restored) => if restored.Some? then restored.value.runs else map[]
    case Saving(_, j, _, _) => j.runs
    case Acknowledging(_, j, _) => j.runs
    case Executing(_, j, _) => j.runs
    case Submitting(_, j, _, _) => j.runs
    case _ => map[]
  }

  /** The run an offer will lead to. */
  function Offered(offer: Offer, now: Millis): Checkpoint {
    Seal(LeasedRun(offer.lease, offer.executorId, now))
  }

  /** Stored, in the journal, or on offer. */
  ghost predicate Holds(c: Client, cp: Checkpoint) {
    || (exists t :: t in c.table && c.table[t] == cp)
    || (exists t :: t in JournalOf(c.phase) && JournalOf(c.phase)[t] == cp)
    || (c.phase.Restoring? && c.phase.offer.Some? && cp == Offered(c.phase.offer.value, c.phase.cycle.now))
  }

  /** The lease waiting for its acknowledgement is that of the run; a result sent is the run's; the executor about to be
      invoked is one this cycle was given. */
  ghost predicate Matches(c: Client) {
    match c.phase
    case Saving(cycle, j, cp, next) =>
      && (next.ThenAcknowledge? ==> LeaseMatches(j, next.lease))
      && (next.ThenExecute? ==> next.taskId in j.runs && j.runs[next.taskId].run.executorId in cycle.executors)
    case Acknowledging(_, j, lease) => LeaseMatches(j, lease)
    case Executing(cycle, j, t) => t in j.runs && j.runs[t].run.executorId in cycle.executors
    case Submitting(_, j, t, sent) =>
      sent ==> t in j.runs && j.runs[t].run.result.Some? && j.runs[t].run.result.value in c.history.submissions
    case _ => true
  }

  predicate LeaseMatches(j: Journal, lease: Lease) {
    && lease.taskId in j.runs
    && j.runs[lease.taskId].run.plan.planId == lease.planId && j.runs[lease.taskId].run.deviceId == lease.deviceId
  }

  /** The same run, with its result if it had one. */
  predicate SameRun(a: Checkpoint, b: Checkpoint) {
    && a.run.taskId == b.run.taskId && a.run.plan == b.run.plan && a.run.deviceId == b.run.deviceId
    && a.run.executorId == b.run.executorId && (a.run.result.Some? ==> b.run.result == a.run.result)
  }

  /** Whatever `b` rests on, `a` rested on already or the event is. */
  ghost predicate Continues(c: Client, e: Event, a: Checkpoint, b: Checkpoint) {
    SameRun(a, b) && forall kind :: Expects(kind, b) ==> Expects(kind, a) || Evidence(kind, c, e, b)
  }

  /** A run that starts with this event. */
  predicate Fresh(c: Client, e: Event, cp: Checkpoint) {
    cp.run.state == Leased && cp.run.result.None? && Evidence(ByLease, c, e, cp)
  }

  ghost predicate FromBefore(c: Client, e: Event, cp: Checkpoint) {
    Fresh(c, e, cp) || exists a :: Holds(c, a) && Continues(c, e, a, cp)
  }

  // ---- One step ----

  lemma Unchanged(c: Client, e: Event, cp: Checkpoint)
    requires Holds(c, cp)
    ensures FromBefore(c, e, cp)
  {
    hide Holds;
    assert Continues(c, e, cp, cp);
  }

  /** What a journal call leaves: what was there, and what it returns. */
  lemma CallLeaves(j: Journal, call: JournalCall, now: Millis, t: Id)
    requires JournalInv(j)
    ensures var (next, r) := Call(j, call, now);
            t in next.runs ==> (t in j.runs && next.runs[t] == j.runs[t]) || (r.Ok? && next.runs[t] == r.value)
  {
    hide WellSealed;
    CallSucceeds(j, call, now);
  }

  /** A transition continues the run it finds. */
  lemma TransitionContinues(c: Client, e: Event, j: Journal, t: Id, from: set<RunState>, to: RunState, now: Millis)
    requires Keyed(j) && Transition(j, t, from, to, now).1.Ok? && Leased !in from && to != Synced && to != Leased
    ensures t in j.runs && Continues(c, e, j.runs[t], Transition(j, t, from, to, now).1.value)
  {
  }

  lemma AcknowledgedContinues(c: Client, e: Event)
    requires c.phase.Acknowledging? && Keyed(c.phase.journal) && LeaseMatches(c.phase.journal, c.phase.lease)
    requires e == AckReceived(c.phase.lease.planId, c.phase.lease.deviceId, true)
    requires MarkLeaseAcknowledged(c.phase.journal, c.phase.lease.taskId, c.phase.cycle.now).1.Ok?
    ensures var j, t := c.phase.journal, c.phase.lease.taskId;
            t in j.runs && Continues(c, e, j.runs[t], MarkLeaseAcknowledged(j, t, c.phase.cycle.now).1.value)
  {
  }

  lemma CompletedContinues(c: Client, e: Event)
    requires c.phase.Executing? && JournalInv(c.phase.journal) && e.ExecutorReturned? && c.phase.cycle.attempt == Some(c.phase.taskId)
    requires CompletePendingSync(c.phase.journal, c.phase.taskId, e.output, c.phase.cycle.now).1.Ok?
    ensures var j, t := c.phase.journal, c.phase.taskId;
            t in j.runs && Continues(c, e, j.runs[t], CompletePendingSync(j, t, e.output, c.phase.cycle.now).1.value)
  {
    assert WellSealed(c.phase.journal.runs[c.phase.taskId]);
  }

  lemma SyncedContinues(c: Client, e: Event)
    requires c.phase.Submitting? && Keyed(c.phase.journal) && Matches(c) && c.phase.sent && c.phase.taskId in c.phase.journal.runs
    requires var run := c.phase.journal.runs[c.phase.taskId].run; e == ResultAccepted(c.phase.taskId, run.plan.planId, run.deviceId)
    requires MarkSynced(c.phase.journal, c.phase.taskId, c.phase.cycle.now).1.Ok?
    ensures var j, t := c.phase.journal, c.phase.taskId;
            Continues(c, e, j.runs[t], MarkSynced(j, t, c.phase.cycle.now).1.value)
  {
  }

  lemma EvidenceCarries(c: Client, e: Event, kind: Kind, a: Checkpoint, b: Checkpoint)
    requires SameRun(a, b) && Evidence(kind, c, e, a)
    ensures Evidence(kind, c, e, b)
  {
  }

  lemma ContinuesOn(c: Client, e: Event, a: Checkpoint, b: Checkpoint)
    requires Continues(c, e, a, b) && (Holds(c, a) || (FromBefore(c, e, a) && a.run.state != Leased))
    ensures FromBefore(c, e, b)
  {
    hide Holds, Evidence, Expects;
    if !Holds(c, a) {
      var x :| Holds(c, x) && Continues(c, e, x, a);
      forall kind | Expects(kind, b) ensures Expects(kind, x) || Evidence(kind, c, e, b) {
        if Expects(kind, a) && !Expects(kind, x) { EvidenceCarries(c, e, kind, a, b); }
      }
      assert Continues(c, e, x, b);
    }
  }

  // ---- Segments ----

  ghost predicate JournalFromBefore(c: Client, e: Event, j: Journal) {
    JournalInv(j) && forall id :: id in j.runs ==> FromBefore(c, e, j.runs[id])
  }

  /** Everything held after a segment is from before, and what waits matches. */
  ghost predicate Accounts(c: Client, e: Event, c': Client) {
    && (forall t :: t in JournalOf(c'.phase) ==> FromBefore(c, e, JournalOf(c'.phase)[t]))
    && (c'.phase.Restoring? && c'.phase.offer.Some? ==> FromBefore(c, e, Offered(c'.phase.offer.value, c'.phase.cycle.now)))
    && Matches(c')
  }

  lemma CallFromBefore(c: Client, e: Event, j: Journal, call: JournalCall, now: Millis)
    requires JournalFromBefore(c, e, j)
    requires Call(j, call, now).1.Ok? ==> FromBefore(c, e, Call(j, call, now).1.value)
    ensures forall t :: t in Call(j, call, now).0.runs ==> FromBefore(c, e, Call(j, call, now).0.runs[t])
  {
    hide Call, FromBefore;
    forall t | t in Call(j, call, now).0.runs ensures FromBefore(c, e, Call(j, call, now).0.runs[t]) {
      CallLeaves(j, call, now, t);
    }
  }

  lemma AbortedAccounts(c: Client, e: Event, d: Client, cycle: Cycle)
    ensures Accounts(c, e, Aborted(d, cycle))
  {
    hide FromBefore;
  }

  /** A segment that ends in a journal call and, if that succeeds, in saving what it returns. */
  lemma CallAccounts(c: Client, e: Event, d: Client, cycle: Cycle, j: Journal, call: JournalCall, next: AfterSave)
    requires JournalFromBefore(c, e, j)
    requires Call(j, call, cycle.now).1.Ok? ==> FromBefore(c, e, Call(j, call, cycle.now).1.value)
    requires Call(j, call, cycle.now).1.Ok? ==> Matches(d.(phase := Saving(cycle, Call(j, call, cycle.now).0, Call(j, call, cycle.now).1.value, next)))
    ensures var (j', r) := Call(j, call, cycle.now);
            Accounts(c, e, if r.Err? then Aborted(d, cycle) else d.(phase := Saving(cycle, j', r.value, next)))
  {
    hide FromBefore, Call, Matches, WellSealed;
    if Call(j, call, cycle.now).1.Err? {
      AbortedAccounts(c, e, d, cycle);
    } else {
      CallFromBefore(c, e, j, call, cycle.now);
    }
  }

  /** What accepting a lease gives: the run that was there, or the one offered. */
  lemma AcceptedIs(j: Journal, lease: Lease, executorId: Id, now: Millis)
    requires Keyed(j) && AcceptLease(j, lease, executorId, now).1.Ok?
    ensures var (next, r) := AcceptLease(j, lease, executorId, now);
            && r.value == (if lease.taskId in j.runs then j.runs[lease.taskId] else Seal(LeasedRun(lease, executorId, now)))
            && LeaseMatches(next, lease)
  {
  }

  lemma AcceptOfferAccounts(c: Client, e: Event, cycle: Cycle, j: Journal, offer: Offer)
    requires JournalFromBefore(c, e, j) && FromBefore(c, e, Offered(offer, cycle.now))
    ensures Accounts(c, e, AcceptOffer(c, cycle, j, offer))
  {
    hide FromBefore, AcceptLease, LeaseMatches, Accounts, Aborted;
    var call := CallAcceptLease(offer.lease, offer.executorId);
    CallIs(j, call, cycle.now);
    if AcceptLease(j, offer.lease, offer.executorId, cycle.now).1.Ok? {
      AcceptedIs(j, offer.lease, offer.executorId, cycle.now);
    }
    CallAccounts(c, e, c, cycle, j, call, ThenAcknowledge(offer.lease));
  }

  lemma CallIs(j: Journal, call: JournalCall, now: Millis)
    ensures call.CallAcceptLease? ==> Call(j, call, now) == AcceptLease(j, call.lease, call.executorId, now)
    ensures call.CallBegin? ==> Call(j, call, now) == Begin(j, call.taskId, now)
    ensures call.CallPause? ==> Call(j, call, now) == Pause(j, call.taskId, now)
    ensures call.CallMarkLeaseAcknowledged? ==> Call(j, call, now) == MarkLeaseAcknowledged(j, call.taskId, now)
    ensures call.CallCompletePendingSync? ==> Call(j, call, now) == CompletePendingSync(j, call.taskId, call.output, now)
    ensures call.CallMarkSynced? ==> Call(j, call, now) == MarkSynced(j, call.taskId, now)
  {
    hide AcceptLease, Begin, Pause, MarkLeaseAcknowledged, CompletePendingSync, MarkSynced;
  }

  lemma BegunContinues(c: Client, e: Event, j: Journal, t: Id, now: Millis)
    requires Keyed(j) && Begin(j, t, now).1.Ok?
    ensures t in j.runs && j.runs[t].run.state != Leased && Continues(c, e, j.runs[t], Begin(j, t, now).1.value)
    ensures t in Begin(j, t, now).0.runs && Begin(j, t, now).0.runs[t].run.executorId == j.runs[t].run.executorId
  {
  }

  lemma ResumeAccounts(c: Client, e: Event, d: Client, cycle: Cycle, j: Journal, t: Id)
    requires JournalFromBefore(c, e, j)
    ensures Accounts(c, e, Resume(d, cycle, j, t))
  {
    hide FromBefore, Begin, Continues, Accounts, Aborted, Submit;
    CallIs(j, CallBegin(t), cycle.now);
    AbortedAccounts(c, e, d, cycle);
    SubmitAccounts(c, e, d, cycle, j, t);
    if Begin(j, t, cycle.now).1.Ok? {
      BegunContinues(c, e, j, t, cycle.now);
      ContinuesOn(c, e, j.runs[t], Begin(j, t, cycle.now).1.value);
    }
    if t in j.runs && j.runs[t].run.executorId in cycle.executors {
      CallAccounts(c, e, d, cycle, j, CallBegin(t), ThenExecute(t));
    }
  }

  lemma SubmitAccounts(c: Client, e: Event, d: Client, cycle: Cycle, j: Journal, t: Id)
    requires JournalFromBefore(c, e, j)
    ensures Accounts(c, e, Submit(d, cycle, j, t))
  {
    hide FromBefore, WellSealed, ResultForSync;
  }

  lemma PausedContinues(c: Client, e: Event, j: Journal, t: Id, now: Millis)
    requires Keyed(j) && Pause(j, t, now).1.Ok?
    ensures t in j.runs && j.runs[t].run.state != Leased && Continues(c, e, j.runs[t], Pause(j, t, now).1.value)
  {
  }

  lemma PauseAccounts(c: Client, e: Event, cycle: Cycle, j: Journal, t: Id)
    requires JournalFromBefore(c, e, j)
    ensures Accounts(c, e, PauseRun(c, cycle, j, t))
  {
    hide FromBefore, Pause, Continues, Accounts, Aborted;
    CallIs(j, CallPause(t), cycle.now);
    if Pause(j, t, cycle.now).1.Ok? {
      PausedContinues(c, e, j, t, cycle.now);
      ContinuesOn(c, e, j.runs[t], Pause(j, t, cycle.now).1.value);
    }
    CallAccounts(c, e, c, cycle, j, CallPause(t), ThenThrow);
  }

  lemma HeldFromBefore(c: Client, e: Event)
    ensures forall t :: t in JournalOf(c.phase) ==> FromBefore(c, e, JournalOf(c.phase)[t])
    ensures forall t :: t in c.table ==> FromBefore(c, e, c.table[t])
    ensures c.phase.Restoring? && c.phase.offer.Some? ==> FromBefore(c, e, Offered(c.phase.offer.value, c.phase.cycle.now))
  {
    hide FromBefore;
    forall t | t in JournalOf(c.phase) ensures FromBefore(c, e, JournalOf(c.phase)[t]) { Unchanged(c, e, JournalOf(c.phase)[t]); }
    forall t | t in c.table ensures FromBefore(c, e, c.table[t]) { Unchanged(c, e, c.table[t]); }
    if c.phase.Restoring? && c.phase.offer.Some? { Unchanged(c, e, Offered(c.phase.offer.value, c.phase.cycle.now)); }
  }

  lemma HeldJournal(c: Client, e: Event, j: Journal)
    requires JournalInv(j) && JournalOf(c.phase) == j.runs
    ensures JournalFromBefore(c, e, j) && forall t :: t in j.runs ==> Holds(c, j.runs[t])
  {
    hide FromBefore, WellSealed;
    HeldFromBefore(c, e);
    assert forall t :: t in j.runs ==> t in JournalOf(c.phase) && JournalOf(c.phase)[t] == j.runs[t];
  }

  // ---- Steps, phase by phase ----

  lemma RestoredFromBefore(c: Client, e: Event, t: Id, now: Millis)
    requires t in c.table
    ensures FromBefore(c, e, Restored(c.table[t], now))
  {
    hide FromBefore;
    assert Continues(c, e, c.table[t], Restored(c.table[t], now));
    ContinuesOn(c, e, c.table[t], Restored(c.table[t], now));
  }

  lemma RestoringAccounts(c: Client, e: Event, c': Client)
    requires c.phase.Restoring? && TableInv(c.table, c.deviceId) && Step(c, e, c')
    ensures Accounts(c, e, c')
  {
    hide FromBefore, WellSealed, TableInv, Restore, Resume, AcceptOffer, Enumerates, FirstIn;
    var Restoring(cycle, offer) := c.phase;
    if e.RowsRead? && Restore(e.rows, cycle.now).Ok? {
      var j := Restore(e.rows, cycle.now).value;
      RestoreOfTable(c.table, c.deviceId, e.rows, cycle.now);
      forall t | t in j.runs ensures FromBefore(c, e, j.runs[t]) { RestoredFromBefore(c, e, t, cycle.now); }
      HeldFromBefore(c, e);
      if offer.Some? {
        AcceptOfferAccounts(c, e, cycle, j, offer.value);
      } else if FirstIn(j.order, j.runs, UNFINISHED).Some? {
        ResumeAccounts(c, e, c, cycle, j, FirstIn(j.order, j.runs, UNFINISHED).value);
      }
    }
  }

  lemma PollingAccounts(c: Client, e: Event, c': Client)
    requires c.phase.Polling? && (c.phase.restored.Some? ==> JournalInv(c.phase.restored.value)) && Next(c, e) == Some(c')
    ensures Accounts(c, e, c')
  {
    hide FromBefore, WellSealed, AcceptOffer, FirstIn;
    var Polling(cycle, restored) := c.phase;
    HeldFromBefore(c, e);
    if restored.Some? { HeldJournal(c, e, restored.value); }
    if e.LeasePolled? && e.lease.deviceId == c.deviceId && !e.lease.externalWrites {
      var offer := Offer(e.lease, e.executorId);
      assert FromBefore(c, e, Offered(offer, cycle.now)) by { PolledIsFresh(c, e); }
      if restored.Some? { AcceptOfferAccounts(c, e, cycle, restored.value, offer); }
    }
  }

  lemma PolledIsFresh(c: Client, e: Event)
    requires c.phase.Polling? && e.LeasePolled? && e.lease.deviceId == c.deviceId && !e.lease.externalWrites
    ensures FromBefore(c, e, Offered(Offer(e.lease, e.executorId), c.phase.cycle.now))
  {
    assert Fresh(c, e, Offered(Offer(e.lease, e.executorId), c.phase.cycle.now));
  }

  lemma SavingAccounts(c: Client, e: Event, c': Client)
    requires c.phase.Saving? && JournalInv(c.phase.journal) && Matches(c) && Next(c, e) == Some(c')
    ensures Accounts(c, e, c')
  {
    hide FromBefore, WellSealed, SaveRunCheckpoint, Resume, Submit, LeaseMatches, Aborted, Holds;
    var Saving(cycle, j, cp, next) := c.phase;
    HeldJournal(c, e, j);
    var d := c.(table := SaveRunCheckpoint(c.table, c.deviceId, cp, cycle.now).0);
    AbortedAccounts(c, e, c, cycle);
    AbortedAccounts(c, e, d, cycle);
    if next.ThenAccepted? { ResumeAccounts(c, e, d, cycle, j, next.taskId); }
    if next.ThenSubmit? { SubmitAccounts(c, e, d, cycle, j, next.taskId); }
  }

  lemma AcknowledgingAccounts(c: Client, e: Event, c': Client)
    requires c.phase.Acknowledging? && JournalInv(c.phase.journal) && Matches(c) && Next(c, e) == Some(c')
    ensures Accounts(c, e, c')
  {
    hide FromBefore, WellSealed, MarkLeaseAcknowledged, Continues, LeaseMatches, Accounts, Aborted, Holds;
    var Acknowledging(cycle, j, lease) := c.phase;
    HeldJournal(c, e, j);
    AbortedAccounts(c, e, c, cycle);
    CallIs(j, CallMarkLeaseAcknowledged(lease.taskId), cycle.now);
    if e == AckReceived(lease.planId, lease.deviceId, true) {
      if MarkLeaseAcknowledged(j, lease.taskId, cycle.now).1.Ok? {
        AcknowledgedContinues(c, e);
        ContinuesOn(c, e, j.runs[lease.taskId], MarkLeaseAcknowledged(j, lease.taskId, cycle.now).1.value);
      }
      CallAccounts(c, e, c, cycle, j, CallMarkLeaseAcknowledged(lease.taskId), ThenAccepted(lease.taskId));
    }
  }

  lemma ExecutingAccounts(c: Client, e: Event, c': Client)
    requires c.phase.Executing? && JournalInv(c.phase.journal) && AttemptOnly(c.phase.cycle, c.phase.taskId)
    requires Matches(c) && Next(c, e) == Some(c')
    ensures Accounts(c, e, c')
  {
    hide FromBefore, WellSealed, CompletePendingSync, Continues, PauseRun, Accounts, Aborted, Holds;
    var Executing(cycle, j, t) := c.phase;
    HeldJournal(c, e, j);
    if cycle.attempt.None? {
      InvokedAccounts(c, e, c');
    } else {
      PauseAccounts(c, e, cycle, j, t);
      if e.ExecutorReturned? && CompletePendingSync(j, t, e.output, cycle.now).1.Ok? {
        CallIs(j, CallCompletePendingSync(t, e.output), cycle.now);
        CompletedContinues(c, e);
        ContinuesOn(c, e, j.runs[t], CompletePendingSync(j, t, e.output, cycle.now).1.value);
        CallAccounts(c, e, c, cycle, j, CallCompletePendingSync(t, e.output), ThenSubmit(t));
      }
      if e == Died { AbortedAccounts(c, e, c, cycle); }
    }
  }

  lemma InvokedAccounts(c: Client, e: Event, c': Client)
    requires c.phase.Executing? && JournalFromBefore(c, e, c.phase.journal) && Matches(c) && c.phase.cycle.attempt.None?
    requires Next(c, e) == Some(c')
    ensures Accounts(c, e, c')
  {
    hide FromBefore, WellSealed;
  }

  lemma SubmittingAccounts(c: Client, e: Event, c': Client)
    requires c.phase.Submitting? && JournalInv(c.phase.journal) && Matches(c) && Next(c, e) == Some(c')
    ensures Accounts(c, e, c')
  {
    hide FromBefore, WellSealed, MarkSynced, Continues, ResultForSync, Aborted, Holds;
    var Submitting(cycle, j, t, sent) := c.phase;
    HeldJournal(c, e, j);
    AbortedAccounts(c, e, c, cycle);
    CallIs(j, CallMarkSynced(t), cycle.now);
    if e == ResultSent {
      SentMatches(j, t);
    } else if sent && t in j.runs && e == ResultAccepted(t, j.runs[t].run.plan.planId, j.runs[t].run.deviceId) {
      hide Accounts;
      if MarkSynced(j, t, cycle.now).1.Ok? {
        SyncedContinues(c, e);
        ContinuesOn(c, e, j.runs[t], MarkSynced(j, t, cycle.now).1.value);
      }
      CallAccounts(c, e, c, cycle, j, CallMarkSynced(t), ThenFinish);
    }
  }

  lemma SentMatches(j: Journal, t: Id)
    ensures ResultForSync(j, t).Ok? ==> t in j.runs && j.runs[t].run.result == Some(ResultForSync(j, t).value)
  {
  }

  lemma StepAccounts(c: Client, e: Event, c': Client)
    requires ClientInv(c) && Matches(c) && Step(c, e, c')
    ensures Accounts(c, e, c')
  {
    hide WellSealed, TableInv, HistoryInv, FromBefore, Enumerates;
    match c.phase
    case Restoring(_, _) => RestoringAccounts(c, e, c');
    case Polling(_, _) => PollingAccounts(c, e, c');
    case Saving(_, _, _, _) => SavingAccounts(c, e, c');
    case Acknowledging(_, _, _) => AcknowledgingAccounts(c, e, c');
    case Executing(_, _, _) => ExecutingAccounts(c, e, c');
    case Submitting(_, _, _, _) => SubmittingAccounts(c, e, c');
    case _ =>
  }

  /** Only a save changes the table, by what it saves. */
  lemma TableAfter(c: Client, e: Event, c': Client)
    requires Next(c, e) == Some(c')
    ensures c'.table == c.table || (c.phase.Saving? && c'.table == c.table[c.phase.cp.run.taskId := c.phase.cp])
  {
    hide Restore, AcceptOffer, Resume, Submit, PauseRun, CompletePendingSync, MarkSynced, MarkLeaseAcknowledged, FirstIn, ResultForSync;
    SegmentsKeepTable();
  }

  lemma SegmentsKeepTable()
    ensures forall c: Client, cycle, j, offer :: AcceptOffer(c, cycle, j, offer).table == c.table
    ensures forall c: Client, cycle, j, t :: Resume(c, cycle, j, t).table == c.table
    ensures forall c: Client, cycle, j, t :: Submit(c, cycle, j, t).table == c.table
    ensures forall c: Client, cycle, j, t :: PauseRun(c, cycle, j, t).table == c.table
  {
    hide AcceptLease, Begin, Pause, ResultForSync;
  }

  lemma StoredWasHeld(c: Client, e: Event, c': Client, t: Id)
    requires ClientInv(c) && Step(c, e, c') && t in c'.table
    ensures Holds(c, c'.table[t])
  {
    hide TableInv, HistoryInv, JournalAhead, Next;
    TableAfter(c, e, c');
    if c'.table != c.table {
      assert c.phase.cp.run.taskId in JournalOf(c.phase) && JournalOf(c.phase)[c.phase.cp.run.taskId] == c.phase.cp;
    }
  }

  /** Whatever the client holds after a step it held before, in an earlier state that rests on no more, or the step is a
      poll that brings it. */
  lemma StepFromBefore(c: Client, e: Event, c': Client, cp: Checkpoint)
    requires ClientInv(c) && Matches(c) && Step(c, e, c') && Holds(c', cp)
    ensures FromBefore(c, e, cp)
  {
    hide ClientInv, Step, Matches, FromBefore;
    StepAccounts(c, e, c');
    if t :| t in c'.table && c'.table[t] == cp {
      StoredWasHeld(c, e, c', t);
      Unchanged(c, e, cp);
    }
  }

  // ---- Whole runs ----

  /** Everything a checkpoint rests on has happened. */
  ghost predicate AccountedFor(states: seq<Client>, events: seq<Event>, k: nat, cp: Checkpoint)
    requires k <= |events| < |states|
  {
    forall kind :: Expects(kind, cp) ==> Seen(states, events, k, kind, cp)
  }

  lemma SeenLater(states: seq<Client>, events: seq<Event>, k: nat, a: Checkpoint, b: Checkpoint)
    requires k < |events| < |states|
    requires AccountedFor(states, events, k, a) && Continues(states[k], events[k], a, b)
    ensures AccountedFor(states, events, k + 1, b)
  {
    hide Expects, Evidence;
    forall kind | Expects(kind, b) ensures Seen(states, events, k + 1, kind, b) {
      if Expects(kind, a) {
        var i :| 0 <= i < k && Evidence(kind, states[i], events[i], a);
        EvidenceCarries(states[i], events[i], kind, a, b);
      }
    }
  }

  lemma FreshIsAccountedFor(states: seq<Client>, events: seq<Event>, k: nat, cp: Checkpoint)
    requires k < |events| < |states| && Fresh(states[k], events[k], cp)
    ensures AccountedFor(states, events, k + 1, cp)
  {
    forall kind | Expects(kind, cp) ensures Seen(states, events, k + 1, kind, cp) {
      assert kind == ByLease;
    }
  }

  /** In every state of every run, whatever the client holds goes back to a lease it polled, and its state and result
      to the answers they need. */
  lemma {:induction false} HeldIsAccountedFor(states: seq<Client>, events: seq<Event>, k: nat)
    requires IsRun(states, events) && Initial(states[0]) && k < |states|
    ensures Matches(states[k])
    ensures forall cp :: Holds(states[k], cp) ==> AccountedFor(states, events, k, cp)
  {
    hide ClientInv, Step, AccountedFor, Evidence;
    if k == 0 {
      assert forall cp :: !Holds(states[0], cp);
    } else {
      var c, e, c' := states[k - 1], events[k - 1], states[k];
      HeldIsAccountedFor(states, events, k - 1);
      RunInvariant(states, events, k - 1, k - 1);
      assert Step(c, e, states[k - 1 + 1]);
      StepAccounts(c, e, c');
      forall cp | Holds(c', cp) ensures AccountedFor(states, events, k, cp) {
        StepFromBefore(c, e, c', cp);
        if Fresh(c, e, cp) {
          FreshIsAccountedFor(states, events, k - 1, cp);
        } else {
          var a :| Holds(c, a) && Continues(c, e, a, cp);
          SeenLater(states, events, k - 1, a, cp);
        }
      }
    }
  }

  // ---- What that means ----

  /** Every stored run goes back to a lease polled for it, with its plan, device and chosen executor. */
  lemma RunsComeFromLeases(states: seq<Client>, events: seq<Event>, k: nat, t: Id)
    requires IsRun(states, events) && Initial(states[0]) && k < |states| && t in states[k].table
    ensures var run := states[k].table[t].run;
            exists i :: 0 <= i < k && events[i].LeasePolled? && events[i].lease.taskId == t && events[i].lease.plan == run.plan
              && events[i].lease.deviceId == run.deviceId == states[i].deviceId && !events[i].lease.externalWrites
              && events[i].executorId == run.executorId
  {
    hide ClientInv, Step;
    var cp := states[k].table[t];
    HeldIsAccountedFor(states, events, k);
    RunInvariant(states, events, k, k);
    RowHasKey(states[k], t);
    assert Expects(ByLease, cp);
    var i :| 0 <= i < k && Evidence(ByLease, states[i], events[i], cp);
  }

  lemma RowHasKey(c: Client, t: Id)
    requires ClientInv(c) && t in c.table
    ensures c.table[t].run.taskId == t && Holds(c, c.table[t])
    ensures ExpectsResult(c.table[t].run.state) <==> c.table[t].run.result.Some?
  {
    hide HistoryInv, PhaseInv;
    assert WellSealed(c.table[t]);
  }

  /** Every stored result is what an executor invoked for its task returned, with the same outcome, summary and artifact
      digests, for the row's device and plan. */
  lemma ResultsComeFromExecutors(states: seq<Client>, events: seq<Event>, k: nat, t: Id)
    requires IsRun(states, events) && Initial(states[0]) && k < |states| && HasResult(states[k].table, t)
    ensures var r := states[k].table[t].run.result.value;
            && r.taskId == t && r.deviceId == states[k].table[t].run.deviceId && r.planId == states[k].table[t].run.plan.planId
            && exists i :: 0 <= i < k && states[i].phase.Executing? && states[i].phase.taskId == t && events[i].ExecutorReturned?
                 && r.outcome == events[i].output.outcome && r.summaryCode == events[i].output.summaryCode
                 && r.artifactDigests == events[i].output.artifactDigests && r.completedAt == Some(states[i].phase.cycle.now)
  {
    hide ClientInv, Step;
    var cp := states[k].table[t];
    HeldIsAccountedFor(states, events, k);
    RunInvariant(states, events, k, k);
    RowHasKey(states[k], t);
    assert Expects(ByExecutor, cp);
    var i :| 0 <= i < k && Evidence(ByExecutor, states[i], events[i], cp);
  }

  /** And so is everything submitted. */
  lemma SubmissionsComeFromExecutors(states: seq<Client>, events: seq<Event>, k: nat, r: RunResult)
    requires IsRun(states, events) && Initial(states[0]) && k < |states| && r in states[k].history.submissions
    ensures HasResult(states[k].table, r.taskId) && states[k].table[r.taskId].run.result == Some(r)
    ensures exists i :: 0 <= i < k && states[i].phase.Executing? && states[i].phase.taskId == r.taskId && events[i].ExecutorReturned?
              && r.outcome == events[i].output.outcome && r.summaryCode == events[i].output.summaryCode
              && r.artifactDigests == events[i].output.artifactDigests
  {
    hide ClientInv, Step;
    SubmissionsAndInvocations(states, events, k, r.taskId);
    ResultsComeFromExecutors(states, events, k, r.taskId);
  }

  ghost predicate WasAcknowledged(states: seq<Client>, events: seq<Event>, k: nat, run: Run)
    requires k <= |events| < |states|
  {
    exists i :: 0 <= i < k && states[i].phase.Acknowledging? && states[i].phase.lease.taskId == run.taskId
      && events[i] == AckReceived(run.plan.planId, run.deviceId, true)
  }

  ghost predicate WasAccepted(states: seq<Client>, events: seq<Event>, k: nat, run: Run)
    requires k <= |events| < |states|
  {
    exists i :: 0 <= i < k && states[i].phase.Submitting? && states[i].phase.taskId == run.taskId
      && events[i] == ResultAccepted(run.taskId, run.plan.planId, run.deviceId)
      && run.result.Some? && run.result.value in states[i].history.submissions
  }

  /** A run past its lease was acknowledged by an answer that names its plan and device; a synced one had its result
      submitted and taken by an answer that names its task, plan and device. */
  lemma StatesComeFromAnswers(states: seq<Client>, events: seq<Event>, k: nat, t: Id)
    requires IsRun(states, events) && Initial(states[0]) && k < |states| && t in states[k].table
    ensures states[k].table[t].run.state != Leased ==> WasAcknowledged(states, events, k, states[k].table[t].run)
    ensures states[k].table[t].run.state == Synced ==> WasAccepted(states, events, k, states[k].table[t].run)
  {
    hide ClientInv, Step;
    var cp := states[k].table[t];
    HeldIsAccountedFor(states, events, k);
    RunInvariant(states, events, k, k);
    RowHasKey(states[k], t);
    if cp.run.state != Leased {
      assert Expects(ByAcknowledgement, cp);
      var i :| 0 <= i < k && Evidence(ByAcknowledgement, states[i], events[i], cp);
    }
    if cp.run.state == Synced {
      assert Expects(ByAcceptance, cp);
      var i :| 0 <= i < k && Evidence(ByAcceptance, states[i], events[i], cp);
    }
  }

  /** An executor is invoked only if the cycle was given it, for the run it was chosen for. */
  lemma InvokedWasGiven(states: seq<Client>, events: seq<Event>, k: nat)
    requires IsRun(states, events) && Initial(states[0]) && k < |events| && events[k] == ExecutorInvoked
    ensures states[k].phase.Executing? && states[k].phase.taskId in states[k].table
    ensures var run := states[k].table[states[k].phase.taskId].run;
            run.executorId in states[k].phase.cycle.executors
            && states[k + 1].history.invocations == states[k].history.invocations + [Invocation(run.taskId, run.executorId, run.plan)]
  {
    hide WellSealed, HistoryInv;
    HeldIsAccountedFor(states, events, k);
    RunInvariant(states, events, k, k);
    assert Step(states[k], events[k], states[k + 1]);
  }
}
