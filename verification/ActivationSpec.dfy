/** Service activation: the files of the service directory, what the user's service manager holds, and the
    durable steps between them. A crash leaves one of the states between two steps. */
module ActivationSpec {
  import opened Common

  type Path = string
  type Digest = string
  type Pid = nat

  /** What an installation was prepared as. */
  datatype Prepared = Prepared(installationId: string, configDigest: Digest, definitionDigest: Digest)

  datatype Intent = Intent(transactionId: string, prepared: Prepared, target: Path)

  datatype Receipt = Receipt(intent: Intent, pid: Pid)

  // ---- Observations ----

  datatype Status = Status(registered: bool, running: bool, pid: Option<Pid>)

  datatype Health = Health(installationId: string, pid: Pid, ready: bool)

  /** One look at the manager and the health file; `None` where it throws. */
  datatype Observation = Observation(status: Option<Status>, health: Option<Health>)

  /** The manager runs the service as this process and its health file says the same. */
  predicate Agrees(o: Observation, installationId: string, pid: Pid) {
    && o.status == Some(Status(true, true, Some(pid)))
    && o.health == Some(Health(installationId, pid, true))
  }

  function AgreedPid(o: Observation, installationId: string): (pid: Option<Pid>)
    ensures pid.Some? ==> Agrees(o, installationId, pid.value)
    ensures pid == None ==> forall p :: !Agrees(o, installationId, p)
  {
    if o.status.Some? && o.status.value.pid.Some? && Agrees(o, installationId, o.status.value.pid.value)
    then o.status.value.pid else None
  }

  /** The pid of the first look in which manager and health agree. */
  function FirstAgreed(observations: seq<Observation>, installationId: string): (pid: Option<Pid>)
    ensures pid.Some? ==> exists o :: o in observations && Agrees(o, installationId, pid.value)
    ensures pid == None ==> forall o, p :: o in observations ==> !Agrees(o, installationId, p)
  {
    if observations == [] then None
    else if AgreedPid(observations[0], installationId).Some? then AgreedPid(observations[0], installationId)
    else
      var pid := FirstAgreed(observations[1..], installationId);
      assert observations == [observations[0]] + observations[1..];
      pid
  }

  // ---- The state ----

  /** The file a receipt is first written to. */
  datatype Temporary = Partial | Whole(receipt: Receipt)

  /** `prepared` and `definitionFile` are the two files of the preparation. `definitions` and `registered`
      are the manager's. `agreed` holds the looks in which manager and health file agreed. */
  datatype Service = Service(
    prepared: Option<Prepared>, definitionFile: bool,
    intent: Option<Intent>, receipt: Option<Receipt>, deactivation: Option<Receipt>, temporary: Option<Temporary>,
    definitions: map<Path, Digest>, registered: Option<Path>,
    agreed: set<Observation>)

  predicate Names(s: Service, target: Path) {
    || (s.intent.Some? && s.intent.value.target == target)
    || (s.receipt.Some? && s.receipt.value.intent.target == target)
    || (s.deactivation.Some? && s.deactivation.value.intent.target == target)
  }

  /** Some look at this installation's own service found manager and health file agreeing on the pid. */
  ghost predicate Evidenced(s: Service, r: Receipt) {
    exists o :: o in s.agreed && Agrees(o, r.intent.prepared.installationId, r.pid)
  }

  /** Whatever is installed or registered is named by an intent, receipt or deactivation file, the preparation
      is still there, and every receipt has a look in which manager and health agreed on its pid. */
  ghost predicate ServiceInv(s: Service) {
    && (forall t :: t in s.definitions ==> Names(s, t))
    && (s.registered.Some? ==> Names(s, s.registered.value))
    && (s.intent.Some? || s.receipt.Some? || s.deactivation.Some? ==> s.prepared.Some? && s.definitionFile)
    && (s.receipt.Some? ==> Evidenced(s, s.receipt.value))
    && (s.deactivation.Some? ==> Evidenced(s, s.deactivation.value))
    && (s.temporary.Some? && s.temporary.value.Whole? ==> Evidenced(s, s.temporary.value.receipt))
  }

  /** `Agree` is a look, with the installation and the pid it agrees on. */
  datatype Step =
    | PutIntent(intent: Intent)
    | InstallDefinition(target: Path, digest: Digest) | RemoveDefinition(target: Path)
    | Register(target: Path) | Unregister
    | Agree(o: Observation, installationId: string, pid: Pid)
    | PutTemporary(temporary: Temporary) | DropTemporary | CommitReceipt
    | DropIntent | StartDeactivation | DropDeactivation
    | DropDefinitionFile | DropPreparation

  function Do(s: Service, step: Step): Service {
    match step
    case PutIntent(i) => s.(intent := Some(i))
    case InstallDefinition(t, d) => s.(definitions := s.definitions[t := d])
    case RemoveDefinition(t) => s.(definitions := s.definitions - {t})
    case Register(t) => s.(registered := Some(t))
    case Unregister => s.(registered := None)
    case Agree(o, _, _) => s.(agreed := s.agreed + {o})
    case PutTemporary(t) => s.(temporary := Some(t))
    case DropTemporary => s.(temporary := None)
    case CommitReceipt =>
      if s.temporary.Some? && s.temporary.value.Whole? then s.(receipt := Some(s.temporary.value.receipt), temporary := None) else s
    case DropIntent => s.(intent := None)
    case StartDeactivation => s.(deactivation := s.receipt, receipt := None)
    case DropDeactivation => s.(deactivation := None)
    case DropDefinitionFile => s.(definitionFile := false)
    case DropPreparation => s.(prepared := None)
  }

  /** Still named once a file is gone. */
  ghost predicate CanLose(s: Service, without: Service) {
    && (forall t :: t in s.definitions ==> Names(without, t))
    && (s.registered.Some? ==> Names(without, s.registered.value))
  }

  /** The order the code keeps: first the file that names a target, then the target; and the other way round
      when taking things away. */
  ghost predicate Allowed(s: Service, step: Step) {
    match step
    case PutIntent(_) => s.intent == None && s.prepared.Some? && s.definitionFile
    case InstallDefinition(t, _) => Names(s, t)
    case Register(t) => Names(s, t)
    case RemoveDefinition(_) => true
    case Unregister => true
    case Agree(o, installationId, pid) => Agrees(o, installationId, pid)
    case PutTemporary(Partial) => s.receipt == None && s.temporary == None
    case PutTemporary(Whole(r)) => s.receipt == None && s.temporary == None && s.intent == Some(r.intent) && Evidenced(s, r)
    case DropTemporary => true
    case CommitReceipt => s.receipt == None && s.temporary.Some? && s.temporary.value.Whole? && s.intent == Some(s.temporary.value.receipt.intent)
    case DropIntent => s.intent.Some? && CanLose(s, Do(s, DropIntent))
    case StartDeactivation => s.receipt.Some? && s.deactivation == None
    case DropDeactivation => CanLose(s, Do(s, DropDeactivation))
    case DropDefinitionFile => s.intent == None && s.receipt == None && s.deactivation == None
    case DropPreparation => s.intent == None && s.receipt == None && s.deactivation == None && !s.definitionFile
  }

  lemma EvidenceStays(s: Service, step: Step, r: Receipt)
    ensures Evidenced(s, r) ==> Evidenced(Do(s, step), r)
  {
  }

  lemma StepKeepsInv(s: Service, step: Step)
    requires ServiceInv(s) && Allowed(s, step)
    ensures ServiceInv(Do(s, step))
  {
    hide Evidenced;
    var t := Do(s, step);
    forall r: Receipt ensures Evidenced(s, r) ==> Evidenced(t, r) { EvidenceStays(s, step, r); }
    if !step.DropIntent? && !step.DropDeactivation? {
      forall target ensures Names(s, target) ==> Names(t, target) {
      }
    }
  }

  ghost predicate OneStep(s: Service, t: Service) {
    exists step :: Allowed(s, step) && t == Do(s, step)
  }

  /** States one durable step apart, starting in a sound one. */
  ghost predicate IsTrace(trace: seq<Service>) {
    && trace != [] && ServiceInv(trace[0])
    && forall i :: 0 <= i < |trace| - 1 ==> OneStep(trace[i], trace[i + 1])
  }

  /** Every state a crash can leave is sound. */
  lemma {:induction false} InvAtEveryCrash(trace: seq<Service>, i: nat)
    requires IsTrace(trace) && i < |trace|
    ensures ServiceInv(trace[i])
  {
    hide ServiceInv, Allowed, Do;
    if i > 0 {
      InvAtEveryCrash(trace, i - 1);
      assert OneStep(trace[i - 1], trace[i - 1 + 1]);
      var step :| Allowed(trace[i - 1], step) && trace[i] == Do(trace[i - 1], step);
      StepKeepsInv(trace[i - 1], step);
    }
  }

  /** A receipt, once written, is only ever moved aside by a deactivation: it is never rewritten. */
  lemma ReceiptsNeverRewritten(s: Service, t: Service)
    requires OneStep(s, t) && s.receipt.Some?
    ensures t.receipt == s.receipt || (t.receipt == None && t.deactivation == s.receipt)
  {
  }

  lemma TraceExtends(trace: seq<Service>, step: Step)
    requires IsTrace(trace) && Allowed(trace[|trace| - 1], step)
    ensures IsTrace(trace + [Do(trace[|trace| - 1], step)])
  {
    hide ServiceInv, Allowed, Do;
    var s := trace[|trace| - 1];
    var all := trace + [Do(s, step)];
    forall i | 0 <= i < |all| - 1 ensures OneStep(all[i], all[i + 1]) {
      if i < |trace| - 1 {
        assert OneStep(trace[i], trace[i + 1]);
      } else {
        assert all[i] == s && all[i + 1] == Do(s, step);
      }
    }
  }

  /** The record of looks only grows, and only by looks in which manager and health agree. */
  lemma OnlyAgreementsRecorded(s: Service, t: Service)
    requires OneStep(s, t)
    ensures s.agreed <= t.agreed
    ensures forall o :: o in t.agreed && o !in s.agreed ==> exists installationId, pid :: Agrees(o, installationId, pid)
  {
    hide Agrees, CanLose, Names;
    var step :| Allowed(s, step) && t == Do(s, step);
    if step.Agree? {
      assert Agrees(step.o, step.installationId, step.pid);
    }
  }

  // ---- What the outside does ----

  /** How a call of the manager ends; it may have taken effect although it throws. */
  datatype Effect = Done | FailedBefore | FailedAfter

  datatype Manager = Manager(install: Effect, register: Effect, start: Effect) {
    predicate Willing() {
      install == Done && register == Done && start == Done
    }
  }

  /** How stopping and removing the service ends. */
  datatype Removal = Removal(stop: Effect, healthFails: bool, remove: Effect, unlinkFails: bool) {
    predicate Unhindered() {
      stop == Done && !healthFails && remove == Done && !unlinkFails
    }
  }

  /** A failing write or rename may leave the temporary file behind. */
  datatype ReplaceFault = NoFault | WriteFails(left: bool) | RenameFails(left: bool) | UnlinkFails

  function LeftTemporary(fault: ReplaceFault, r: Receipt): Option<Temporary> {
    if fault == WriteFails(true) then Some(Partial) else if fault == RenameFails(true) then Some(Whole(r)) else None
  }

  function Files(s: Service): nat {
    (if s.intent.Some? then 1 else 0) + (if s.receipt.Some? then 1 else 0)
    + (if s.deactivation.Some? then 1 else 0) + (if s.temporary.Some? then 1 else 0)
  }

  /** The layout check: the preparation and at most one activation file, which is not a temporary one. */
  predicate LayoutOk(s: Service) {
    s.prepared.Some? && s.definitionFile && Files(s) <= 1 && s.temporary == None
  }
}
