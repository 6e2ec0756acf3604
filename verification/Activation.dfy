/** Activating, reconciling and deactivating the service step by step. The ghost trace records every durable
    state, so what is proved of it holds wherever a crash falls; every call may start from any of them. */
module Activation {
  import opened Common
  import opened ActivationSpec

  datatype ActivationError =
    | NotPrepared | NotEnrolled | InProgress | AlreadyActive | NotReady | ManagerFailed | ReplaceFailed
    | LineageDrifted | NotRunning | IntentMissing | ReceiptMissing | FileStuck | HasActivationState

  class InstalledService {
    var prepared: Option<Prepared>
    var definitionFile: bool
    var intent: Option<Intent>
    var receipt: Option<Receipt>
    var deactivation: Option<Receipt>
    var temporary: Option<Temporary>
    var definitions: map<Path, Digest>
    var registered: Option<Path>
    ghost var agreed: set<Observation>
    ghost var trace: seq<Service>

    ghost function View(): Service
      reads this
    {
      Service(prepared, definitionFile, intent, receipt, deactivation, temporary, definitions, registered, agreed)
    }

    ghost predicate Valid()
      reads this
    {
      IsTrace(trace) && View() == trace[|trace| - 1]
    }

    lemma Sound()
      requires Valid()
      ensures ServiceInv(View())
    {
      InvAtEveryCrash(trace, |trace| - 1);
    }

    constructor (prepared: Option<Prepared>)
      ensures Valid() && View() == Service(prepared, true, None, None, None, None, map[], None, {})
    {
      this.prepared, definitionFile := prepared, true;
      intent, receipt, deactivation, temporary := None, None, None, None;
      definitions, registered, agreed := map[], None, {};
      trace := [Service(prepared, true, None, None, None, None, map[], None, {})];
    }

    method Write(step: Step)
      requires Valid() && Allowed(View(), step)
      modifies this
      ensures Valid() && View() == Do(old(View()), step) && trace == old(trace) + [View()]
    {
      hide IsTrace, ServiceInv;
      TraceExtends(trace, step);
      match step {
        case PutIntent(i) => intent := Some(i);
        case InstallDefinition(t, d) => definitions := definitions[t := d];
        case RemoveDefinition(t) => definitions := definitions - {t};
        case Register(t) => registered := Some(t);
        case Unregister => registered := None;
        case Agree(o, _, _) => agreed := agreed + {o};
        case PutTemporary(t) => temporary := Some(t);
        case DropTemporary => temporary := None;
        case CommitReceipt => receipt, temporary := Some(temporary.value.receipt), None;
        case DropIntent => intent := None;
        case StartDeactivation => deactivation, receipt := receipt, None;
        case DropDeactivation => deactivation := None;
        case DropDefinitionFile => definitionFile := false;
        case DropPreparation => prepared := None;
      }
      trace := trace + [View()];
    }

    predicate LayoutHolds()
      reads this
    {
      LayoutOk(Service(prepared, definitionFile, intent, receipt, deactivation, temporary, definitions, registered, {}))
    }

    method Layout() returns (ok: bool)
      ensures ok <==> LayoutHolds()
    {
      var files := 0;
      if intent.Some? { files := files + 1; }
      if receipt.Some? { files := files + 1; }
      if deactivation.Some? { files := files + 1; }
      ok := prepared.Some? && definitionFile && files <= 1 && temporary == None;
    }

    // ---- Replacing the intent by a receipt ----

    /** The receipt is written beside the target, renamed onto it, and only then the intent goes. */
    method ReplaceIntent(r: Receipt, fault: ReplaceFault) returns (ok: bool)
      requires Valid() && intent == Some(r.intent) && Evidenced(View(), r) && receipt == None && temporary == None
      modifies this
      ensures Valid() && old(trace) <= trace
      ensures ok <==> fault == NoFault
      ensures ok ==> View() == old(View()).(intent := None, receipt := Some(r))
      ensures fault == UnlinkFails ==> View() == old(View()).(receipt := Some(r))
      ensures !ok && fault != UnlinkFails ==> View() == old(View()).(temporary := LeftTemporary(fault, r))
    {
      hide IsTrace, Evidenced;
      if fault.WriteFails? {
        if fault.left { Write(PutTemporary(Partial)); }
        return false;
      }
      Write(PutTemporary(Whole(r)));
      if fault.RenameFails? {
        if !fault.left { Write(DropTemporary); }
        return false;
      }
      Write(CommitReceipt);
      if fault == UnlinkFails { return false; }
      Sound();
      Write(DropIntent);
      ok := true;
    }

    // ---- Taking the service down ----

    /** Stops the owner, then removes its health file and its definition. */
    method TakeDown(target: Path, removal: Removal) returns (ok: bool)
      requires Valid()
      modifies this
      ensures Valid() && old(trace) <= trace
      ensures ok <==> removal.stop == Done && !removal.healthFails && removal.remove == Done
      ensures ok ==> View() == old(View()).(registered := None, definitions := old(definitions) - {target})
      ensures View().(registered := None, definitions := map[]) == old(View()).(registered := None, definitions := map[])
    {
      hide IsTrace;
      if removal.stop != FailedBefore { Write(Unregister); }
      if removal.stop != Done { return false; }
      if removal.healthFails { return false; }
      if removal.remove != FailedBefore { Write(RemoveDefinition(target)); }
      ok := removal.remove == Done;
    }

    /** The rollback of an activation goes on to the definition when only the health file resists. */
    method RollBack(target: Path, removal: Removal)
      requires Valid() && intent.Some? && intent.value.target == target
      modifies this
      ensures Valid() && old(trace) <= trace && agreed == old(agreed)
      ensures removal.Unhindered() ==>
        View() == old(View()).(registered := None, definitions := old(definitions) - {target}, intent := None)
    {
      hide IsTrace;
      var failures := 0;
      if removal.stop != FailedBefore { Write(Unregister); }
      if removal.stop == Done {
        if removal.healthFails { failures := failures + 1; }
        if removal.remove != FailedBefore { Write(RemoveDefinition(target)); }
        if removal.remove != Done { failures := failures + 1; }
      } else {
        failures := failures + 1;
      }
      if failures == 0 && !removal.unlinkFails {
        Sound();
        Write(DropIntent);
      }
    }

    // ---- Activation ----

    /** Polls until manager and health agree, or the observations run out. */
    method WaitForReady(installationId: string, observations: seq<Observation>) returns (pid: Option<Pid>)
      requires Valid()
      modifies this
      ensures Valid() && old(trace) <= trace
      ensures pid == FirstAgreed(observations, installationId)
      ensures View() == old(View()).(agreed := agreed)
      ensures old(agreed) <= agreed <= old(agreed) + set o | o in observations
      ensures pid.Some? ==> exists o :: o in agreed && Agrees(o, installationId, pid.value)
    {
      hide IsTrace, Agrees;
      for i := 0 to |observations|
        invariant Valid() && trace == old(trace) && View() == old(View())
        invariant FirstAgreed(observations, installationId) == FirstAgreed(observations[i..], installationId)
      {
        var o := observations[i];
        assert observations[i..][0] == o && observations[i..][1..] == observations[i + 1..];
        pid := AgreedPid(o, installationId);
        if pid.Some? {
          Write(Agree(o, installationId, pid.value));
          return;
        }
      }
      pid := None;
    }

    /** Definition, registration, start, readiness, receipt; on an error the caller rolls back. */
    method Bring(mine: Intent, manager: Manager, observations: seq<Observation>, fault: ReplaceFault)
      returns (r: Result<Receipt, ActivationError>)
      requires Valid() && intent == Some(mine) && receipt == None && temporary == None
      modifies this
      ensures Valid() && old(trace) <= trace && old(agreed) <= agreed <= old(agreed) + set o | o in observations
      ensures r.Ok? <==> Ready(manager, observations, mine.prepared) && fault == NoFault
      ensures r.Ok? ==> r.value == Receipt(mine, FirstAgreed(observations, mine.prepared.installationId).value)
      ensures r.Ok? ==> View() == old(View()).(
        intent := None, receipt := Some(r.value), registered := Some(mine.target), agreed := agreed,
        definitions := old(definitions)[mine.target := mine.prepared.definitionDigest])
      ensures definitions == old(definitions) || definitions == old(definitions)[mine.target := mine.prepared.definitionDigest]
      ensures r.Err? ==> View() == Failed(old(View()), mine, manager, observations, fault).(
        registered := registered, definitions := definitions, agreed := agreed)
    {
      hide IsTrace, Agrees, ServiceInv, Allowed;
      r := Err(ManagerFailed);
      BringAllowed(mine);
      if manager.install != FailedBefore { Write(InstallDefinition(mine.target, mine.prepared.definitionDigest)); }
      if manager.install != Done { return; }
      BringAllowed(mine);
      if manager.register != FailedBefore { Write(Register(mine.target)); }
      if manager.register != Done || manager.start != Done { return; }
      r := CommitWhenReady(mine, observations, fault);
    }

    /** Waits for manager and health to agree, then puts the receipt in the intent's place. */
    method CommitWhenReady(mine: Intent, observations: seq<Observation>, fault: ReplaceFault)
      returns (r: Result<Receipt, ActivationError>)
      requires Valid() && intent == Some(mine) && receipt == None && temporary == None
      modifies this
      ensures Valid() && old(trace) <= trace && old(agreed) <= agreed <= old(agreed) + set o | o in observations
      ensures r.Ok? <==> FirstAgreed(observations, mine.prepared.installationId).Some? && fault == NoFault
      ensures r.Ok? ==> r.value == Receipt(mine, FirstAgreed(observations, mine.prepared.installationId).value)
      ensures r.Ok? ==> View() == old(View()).(intent := None, receipt := Some(r.value), agreed := agreed)
      ensures r.Err? ==> View() == Uncommitted(old(View()), mine, FirstAgreed(observations, mine.prepared.installationId), fault).(agreed := agreed)
    {
      hide IsTrace, Agrees, ServiceInv, Allowed;
      var pid := WaitForReady(mine.prepared.installationId, observations);
      if pid == None { return Err(NotReady); }
      var committed := Receipt(mine, pid.value);
      var replaced := ReplaceIntent(committed, fault);
      r := if replaced then Ok(committed) else Err(ReplaceFailed);
    }

    lemma BringAllowed(mine: Intent)
      requires intent == Some(mine)
      ensures Allowed(View(), InstallDefinition(mine.target, mine.prepared.definitionDigest)) && Allowed(View(), Register(mine.target))
    {
    }

    /** The manager does as asked, and manager and health come to agree. */
    static predicate Ready(manager: Manager, observations: seq<Observation>, prepared: Prepared) {
      manager.Willing() && FirstAgreed(observations, prepared.installationId).Some?
    }

    /** The files a failed activation leaves beside its intent. */
    static function Failed(s: Service, mine: Intent, manager: Manager, observations: seq<Observation>, fault: ReplaceFault): Service {
      if manager.Willing() then Uncommitted(s, mine, FirstAgreed(observations, mine.prepared.installationId), fault) else s
    }

    /** The files a receipt that could not take the intent's place leaves. */
    static function Uncommitted(s: Service, mine: Intent, pid: Option<Pid>, fault: ReplaceFault): Service {
      if pid == None then s
      else
        var r := Receipt(mine, pid.value);
        if fault == UnlinkFails then s.(receipt := Some(r)) else s.(temporary := LeftTemporary(fault, r))
    }

    /** Nothing of an earlier activation is in the way. */
    predicate CanActivate(enrolled: bool)
      reads this
    {
      LayoutHolds() && enrolled && intent == None && receipt == None
    }

    /** An activation succeeds exactly when nothing is in the way, the manager does as asked, some look finds
        manager and health agreeing, and the receipt takes the intent's place. A failed one leaves nothing of
        itself when its rollback is not hindered, with one exception: if the receipt was renamed into place and
        only then the intent could not be unlinked, the receipt stays although the service is removed. One that
        succeeds over an unfinished deactivation leaves two activation files, which the layout check of every
        later call refuses. */
    method Activate(
        target: Path, transactionId: string, enrolled: bool, manager: Manager, observations: seq<Observation>,
        fault: ReplaceFault, removal: Removal)
      returns (r: Result<Receipt, ActivationError>)
      requires Valid()
      modifies this
      ensures Valid() && old(trace) <= trace && old(agreed) <= agreed <= old(agreed) + set o | o in observations
      ensures r.Ok? <==> old(CanActivate(enrolled)) && Ready(manager, observations, old(prepared).value) && fault == NoFault
      ensures r.Ok? ==>
        r.value == Receipt(Intent(transactionId, old(prepared).value, target), FirstAgreed(observations, old(prepared).value.installationId).value)
      ensures r.Ok? ==> View() == old(View()).(
        receipt := Some(r.value), registered := Some(target), agreed := agreed,
        definitions := old(definitions)[target := old(prepared).value.definitionDigest])
      ensures r.Ok? ==> (LayoutHolds() <==> old(deactivation) == None)
      ensures !old(CanActivate(enrolled)) ==> View() == old(View())
      ensures r.Err? && old(CanActivate(enrolled)) && removal.Unhindered() ==>
        View() == Failed(old(View()), Intent(transactionId, old(prepared).value, target), manager, observations, fault).(
          registered := None, definitions := old(definitions) - {target}, agreed := agreed)
      ensures r.Err? && old(CanActivate(enrolled)) && removal.Unhindered() ==>
        (receipt.Some? <==> Ready(manager, observations, old(prepared).value) && fault == UnlinkFails)
    {
      hide IsTrace, Agrees, ServiceInv;
      var layout := Layout();
      if !layout { return Err(NotPrepared); }
      if !enrolled { return Err(NotEnrolled); }
      if intent.Some? { return Err(InProgress); }
      if receipt.Some? { return Err(AlreadyActive); }
      ghost var before := definitions;
      var mine := Intent(transactionId, prepared.value, target);
      Write(PutIntent(mine));
      r := Bring(mine, manager, observations, fault);
      if r.Ok? { return; }
      assert definitions - {target} == before - {target};
      RollBack(target, removal);
    }

    // ---- Reconciliation ----

    /** The receipt of this installation, with a process that manager and health agree on. */
    predicate Running(look: Observation)
      reads this
    {
      && LayoutHolds() && receipt.Some? && receipt.value.intent.prepared == prepared.value
      && Agrees(look, prepared.value.installationId, receipt.value.pid)
    }

    /** The service as its receipt says it is. */
    method Recover(look: Observation) returns (r: Result<Receipt, ActivationError>)
      ensures r.Ok? <==> Running(look)
      ensures r.Ok? ==> receipt == Some(r.value)
      ensures r == Err(ReceiptMissing) <==> LayoutHolds() && receipt == None
    {
      var layout := Layout();
      if !layout { return Err(NotPrepared); }
      if receipt == None { return Err(ReceiptMissing); }
      if receipt.value.intent.prepared != prepared.value { return Err(LineageDrifted); }
      if look.status == None { return Err(ManagerFailed); }
      if look.status.value != Status(true, true, Some(receipt.value.pid)) { return Err(NotRunning); }
      if look.health != Some(Health(prepared.value.installationId, receipt.value.pid, true)) { return Err(LineageDrifted); }
      r := Ok(receipt.value);
    }

    /** An activation of this installation at this target that left its intent as the only activation file. */
    predicate Interrupted(target: Path)
      reads this
    {
      LayoutHolds() && intent.Some? && intent.value.target == target && intent.value.prepared == prepared.value
    }

    /** After a crash an interrupted activation is confirmed, with a receipt, when manager and health agree,
        and otherwise taken down. When it is taken down because the receipt, already in place, could not
        displace the intent, the answer is "removed" but the receipt stays. */
    method Reconcile(target: Path, look: Observation, second: Observation, fault: ReplaceFault, removal: Removal)
      returns (r: Result<Option<Receipt>, ActivationError>)
      requires Valid()
      modifies this
      ensures Valid() && old(trace) <= trace && old(agreed) <= agreed <= old(agreed) + {second}
      ensures r.Ok? && r.value.Some? <==> old(Running(look)) || (old(Interrupted(target)) && Confirmed(second).Some? && fault == NoFault)
      ensures r.Ok? && r.value == None <==>
        && old(Interrupted(target)) && second.status.Some? && !(Confirmed(second).Some? && fault == NoFault) && removal.Unhindered()
      ensures old(Running(look)) ==> View() == old(View()) && r == Ok(receipt)
      ensures !old(Interrupted(target)) ==> View() == old(View())
      ensures !old(Running(look)) && r.Ok? && r.value.Some? ==>
        && r.value == Some(Receipt(old(intent).value, Confirmed(second).value))
        && View() == old(View()).(intent := None, receipt := r.value, agreed := agreed)
      ensures r.Ok? && r.value == None ==>
        View() == Left(old(View()), Confirmed(second), fault).(
          intent := None, registered := None, definitions := old(definitions) - {target}, agreed := agreed)
    {
      hide IsTrace, ServiceInv, Agrees;
      var recovered := Recover(look);
      if recovered.Ok? {
        return Ok(Some(recovered.value));
      }
      if recovered.error != ReceiptMissing { return Err(recovered.error); }
      if intent == None { return Err(IntentMissing); }
      if intent.value.prepared != prepared.value || intent.value.target != target { return Err(LineageDrifted); }
      if second.status == None { return Err(ManagerFailed); }
      var confirmed := Confirm(second, fault);
      if confirmed.Some? { return Ok(confirmed); }
      var down := TakeDown(target, removal);
      if !down { return Err(ManagerFailed); }
      if removal.unlinkFails { return Err(FileStuck); }
      DropIntentAllowed();
      Write(DropIntent);
      r := Ok(None);
    }

    /** Commits the receipt of an interrupted activation when manager and health agree. */
    method Confirm(second: Observation, fault: ReplaceFault) returns (confirmed: Option<Receipt>)
      requires Valid() && prepared.Some? && intent.Some? && intent.value.prepared == prepared.value && receipt == None && temporary == None
      modifies this
      ensures Valid() && old(trace) <= trace && old(agreed) <= agreed <= old(agreed) + {second}
      ensures confirmed.Some? <==> old(Confirmed(second)).Some? && fault == NoFault
      ensures confirmed.Some? ==>
        && confirmed == Some(Receipt(old(intent).value, old(Confirmed(second)).value))
        && View() == old(View()).(intent := None, receipt := confirmed, agreed := agreed)
      ensures confirmed == None ==> View() == Left(old(View()), old(Confirmed(second)), fault).(agreed := agreed)
    {
      hide IsTrace, ServiceInv, Agrees;
      confirmed := None;
      var pid := AgreedPid(second, prepared.value.installationId);
      if pid.Some? {
        var committed := Receipt(intent.value, pid.value);
        Write(Agree(second, prepared.value.installationId, pid.value));
        var replaced := ReplaceIntent(committed, fault);
        if replaced { confirmed := Some(committed); }
      }
    }

    /** The pid on which manager and health agree at a look, for this installation. */
    function Confirmed(second: Observation): Option<Pid>
      reads this
    {
      if prepared == None then None else AgreedPid(second, prepared.value.installationId)
    }

    /** The files a confirmation that failed leaves beside the intent. */
    static function Left(s: Service, confirmed: Option<Pid>, fault: ReplaceFault): Service {
      if s.intent == None then s else Uncommitted(s, s.intent.value, confirmed, fault)
    }

    lemma DropIntentAllowed()
      requires Valid() && intent.Some? && registered == None && intent.value.target !in definitions
      ensures Allowed(View(), DropIntent)
    {
      Sound();
    }

    // ---- Deactivation ----

    /** A deactivation of this installation that left its file as the only activation file. */
    predicate HalfDeactivated()
      reads this
    {
      LayoutHolds() && deactivation.Some? && deactivation.value.intent.prepared == prepared.value
    }

    /** An active service of this installation. */
    predicate Active()
      reads this
    {
      LayoutHolds() && receipt.Some? && receipt.value.intent.prepared == prepared.value
    }

    /** The receipt becomes a deactivation file first, so an interrupted deactivation can be carried on. It
        succeeds exactly from an active or half deactivated service when nothing hinders it. */
    method Deactivate(renameFails: bool, removal: Removal) returns (r: Result<Receipt, ActivationError>)
      requires Valid()
      modifies this
      ensures Valid() && old(trace) <= trace
      ensures r.Ok? <==> (old(HalfDeactivated()) || (old(Active()) && !renameFails)) && removal.Unhindered()
      ensures r.Ok? ==> Some(r.value) == if old(deactivation).Some? then old(deactivation) else old(receipt)
      ensures r.Ok? ==> View() == old(View()).(deactivation := None, receipt := None, registered := None, definitions := map[])
      ensures r.Ok? ==> Files(View()) == 0
      ensures !old(HalfDeactivated()) && !(old(Active()) && !renameFails) ==> View() == old(View())
      ensures prepared == old(prepared) && intent == old(intent) && temporary == old(temporary)
      ensures r.Err? && (old(HalfDeactivated()) || (old(Active()) && !renameFails)) ==> HalfDeactivated()
    {
      hide IsTrace, ServiceInv;
      var layout := Layout();
      if !layout { return Err(NotPrepared); }
      if deactivation == None {
        if receipt == None { return Err(ReceiptMissing); }
        if receipt.value.intent.prepared != prepared.value { return Err(LineageDrifted); }
        if renameFails { return Err(FileStuck); }
        Write(StartDeactivation);
      } else if deactivation.value.intent.prepared != prepared.value {
        return Err(LineageDrifted);
      }
      var own := deactivation.value;
      OnlyNamed(own.intent.target);
      var down := TakeDown(own.intent.target, removal);
      if !down { return Err(ManagerFailed); }
      if removal.unlinkFails { return Err(FileStuck); }
      assert definitions == map[];
      Write(DropDeactivation);
      r := Ok(own);
    }

    /** With a deactivation file as the only file, its target is all there can be. */
    lemma OnlyNamed(target: Path)
      requires Valid() && intent == None && receipt == None && deactivation.Some? && deactivation.value.intent.target == target
      ensures forall t :: t in definitions ==> t == target
    {
      Sound();
      forall t | t in definitions ensures t == target { assert Names(View(), t); }
    }

    /** Removing a preparation is refused while there is any activation file, and afterwards nothing is
        installed. It takes two unlinks. */
    method RemoveUnregistered(definitionSticks: bool, preparationSticks: bool) returns (r: Result<(), ActivationError>)
      requires Valid()
      modifies this
      ensures Valid() && old(trace) <= trace
      ensures r.Ok? <==> old(LayoutHolds() && Files(View()) == 0) && !definitionSticks && !preparationSticks
      ensures old(LayoutHolds() && Files(View()) == 0) ==> definitions == map[] && registered == None && Files(View()) == 0
      ensures r.Ok? ==> prepared == None && !definitionFile
      ensures !old(LayoutHolds() && Files(View()) == 0) || definitionSticks ==> View() == old(View())
    {
      hide IsTrace;
      var layout := Layout();
      if !layout { return Err(NotPrepared); }
      if intent.Some? || receipt.Some? || deactivation.Some? { return Err(HasActivationState); }
      NothingNamed();
      if definitionSticks { return Err(FileStuck); }
      Write(DropDefinitionFile);
      if preparationSticks { return Err(FileStuck); }
      Write(DropPreparation);
      r := Ok(());
    }

    /** Without activation files nothing is installed or registered. */
    lemma NothingNamed()
      requires Valid() && intent == None && receipt == None && deactivation == None
      ensures definitions == map[] && registered == None
    {
      Sound();
      assert forall t :: !Names(View(), t);
      assert definitions.Keys == {};
    }
  }

  // ---- Where it goes wrong ----

  const HERE := Prepared("installation", "config", "definition")
  const AGREED := Observation(Some(Status(true, true, Some(7))), Some(Health("installation", 7, true)))
  const GONE := Observation(Some(Status(false, false, None)), None)
  const WILLING := Manager(Done, Done, Done)
  const UNHINDERED := Removal(Done, false, Done, false)
  const STUCK := Removal(FailedBefore, false, Done, false)

  /** Activated, half deactivated, activated again: two activation files, and every later call refuses. */
  method ActivatedOverDeactivation(target: Path) returns (service: InstalledService)
    ensures service.Valid() && service.registered == Some(target)
    ensures service.receipt.Some? && service.deactivation.Some? && Files(service.View()) == 2 && !service.LayoutHolds()
  {
    service := new InstalledService(Some(HERE));
    Looks();
    assert service.CanActivate(true);
    assert InstalledService.Ready(WILLING, [AGREED], service.prepared.value);
    var first := service.Activate(target, "first", true, WILLING, [AGREED], NoFault, UNHINDERED);
    assert service.Active();
    var half := service.Deactivate(false, STUCK);
    assert service.CanActivate(true);
    var second := service.Activate(target, "second", true, WILLING, [AGREED], NoFault, UNHINDERED);
    assert second.Ok? && service.View().registered == Some(target);
  }

  /** An activation whose intent could not be unlinked in time: the service is removed, its receipt is not,
      and neither activating again nor reconciling gets past it. */
  method StrandedReceipt(target: Path) returns (service: InstalledService)
    ensures service.Valid() && service.receipt.Some? && service.intent == None
    ensures service.registered == None && service.definitions == map[] && service.LayoutHolds()
  {
    service := new InstalledService(Some(HERE));
    Looks();
    assert service.CanActivate(true);
    var failed := service.Activate(target, "first", true, WILLING, [AGREED], UnlinkFails, UNHINDERED);
    assert failed.Err? && service.View().definitions == map[] && service.View().intent == None;
    var again := service.Activate(target, "second", true, WILLING, [AGREED], NoFault, UNHINDERED);
    assert again.Err?;
    var reconciled := service.Reconcile(target, GONE, AGREED, NoFault, UNHINDERED);
    assert reconciled.Err?;
  }

  lemma Looks()
    ensures FirstAgreed([AGREED], HERE.installationId) == Some(7)
  {
    assert Agrees(AGREED, HERE.installationId, 7);
  }
}
