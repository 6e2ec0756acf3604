/** Device enrollment on the client: the stored row, the poll secret, and the durable steps between them. A
    crash leaves one of the states between two steps. */
module EnrollmentSpec {
  import opened Common

  type Id = string
  type Instant = int

  datatype Verdict = Approved | Expired

  datatype Stage = Pending | CleaningUp(verdict: Verdict) | Final(verdict: Verdict)

  /** `secretRef` is derived from the request id. */
  datatype Enrollment = Enrollment(requestId: Id, device: Id, secretRef: Id, expiresAt: Instant, stage: Stage, updatedAt: Instant)

  datatype Local = Local(device: Id, row: Option<Enrollment>, secrets: map<Id, string>)

  /** A pending row has its poll secret, a final row has none. */
  predicate EnrollmentInv(s: Local) {
    s.row.Some? ==>
      && s.row.value.device == s.device
      && (s.row.value.stage == Pending ==> s.row.value.secretRef in s.secrets)
      && (s.row.value.stage.Final? ==> s.row.value.secretRef !in s.secrets)
  }

  datatype Step =
    | PutSecret(ref: Id, token: string) | DropSecret(ref: Id) | SaveRow(row: Enrollment)
    | Advance(stage: Stage, now: Instant) | ClearRow

  /** What each step may assume: secrets are put and taken back only without a row; a row is saved pending,
      advances to a verdict, and to its final stage once the secret is gone; only a final expiry is cleared. */
  predicate Allowed(s: Local, step: Step) {
    match step
    case PutSecret(_, _) => s.row == None
    case DropSecret(ref) => s.row == None || (s.row.value.stage.CleaningUp? && ref == s.row.value.secretRef)
    case SaveRow(row) => s.row == None && row.stage == Pending && row.device == s.device && row.secretRef in s.secrets
    case Advance(stage, _) =>
      && s.row.Some?
      && (s.row.value.stage == Pending ==> stage.CleaningUp?)
      && (s.row.value.stage.CleaningUp? ==> stage == Final(s.row.value.stage.verdict) && s.row.value.secretRef !in s.secrets)
      && !s.row.value.stage.Final?
    case ClearRow => s.row.Some? && s.row.value.stage == Final(Expired)
  }

  function Do(s: Local, step: Step): Local {
    match step
    case PutSecret(ref, token) => s.(secrets := s.secrets[ref := token])
    case DropSecret(ref) => s.(secrets := s.secrets - {ref})
    case SaveRow(row) => s.(row := Some(row))
    case Advance(stage, now) => if s.row == None then s else s.(row := Some(s.row.value.(stage := stage, updatedAt := now)))
    case ClearRow => s.(row := None)
  }

  /** States one durable step apart, starting in a good one. */
  ghost predicate IsTrace(trace: seq<Local>) {
    && trace != [] && EnrollmentInv(trace[0])
    && forall i :: 0 <= i < |trace| - 1 ==> OneStep(trace[i], trace[i + 1])
  }

  ghost predicate OneStep(s: Local, t: Local) {
    exists step :: Allowed(s, step) && t == Do(s, step)
  }

  function VerdictOf(s: Local): Option<Verdict> {
    if s.row == None || s.row.value.stage == Pending then None else Some(s.row.value.stage.verdict)
  }

  lemma StepKeepsInv(s: Local, t: Local)
    requires EnrollmentInv(s) && OneStep(s, t)
    ensures EnrollmentInv(t)
    ensures VerdictOf(s) == Some(Approved) ==> VerdictOf(t) == Some(Approved) && t.row.value.requestId == s.row.value.requestId
    ensures VerdictOf(s) == Some(Expired) ==> t.row == None || (VerdictOf(t) == Some(Expired) && t.row.value.requestId == s.row.value.requestId)
    ensures t.row == None && s.row.Some? ==> s.row.value.stage == Final(Expired)
  {
  }

  /** The rows and secrets agree at every crash point of every history. */
  lemma {:induction false} InvAtEveryCrash(trace: seq<Local>, i: nat)
    requires IsTrace(trace) && i < |trace|
    ensures EnrollmentInv(trace[i])
  {
    hide EnrollmentInv, OneStep;
    if i > 0 {
      InvAtEveryCrash(trace, i - 1);
      assert OneStep(trace[i - 1], trace[i - 1 + 1]);
      StepKeepsInv(trace[i - 1], trace[i]);
    }
  }

  /** An approval stands for good, with the same request. */
  lemma {:induction false} ApprovalStands(trace: seq<Local>, i: nat, j: nat)
    requires IsTrace(trace) && i <= j < |trace| && VerdictOf(trace[i]) == Some(Approved)
    ensures VerdictOf(trace[j]) == Some(Approved) && trace[j].row.value.requestId == trace[i].row.value.requestId
    decreases j - i
  {
    hide EnrollmentInv, OneStep;
    if i < j {
      ApprovalStands(trace, i, j - 1);
      InvAtEveryCrash(trace, j - 1);
      assert OneStep(trace[j - 1], trace[j - 1 + 1]);
      StepKeepsInv(trace[j - 1], trace[j]);
    }
  }

  /** An expiry stands until its row, finally expired and without a secret, is cleared for a new request. */
  lemma {:induction false} ExpiryStands(trace: seq<Local>, i: nat, j: nat)
    requires IsTrace(trace) && i <= j < |trace| && VerdictOf(trace[i]) == Some(Expired)
    requires forall k :: i <= k <= j ==> trace[k].row.Some?
    ensures VerdictOf(trace[j]) == Some(Expired) && trace[j].row.value.requestId == trace[i].row.value.requestId
    decreases j - i
  {
    hide EnrollmentInv, OneStep;
    if i < j {
      ExpiryStands(trace, i, j - 1);
      InvAtEveryCrash(trace, j - 1);
      assert OneStep(trace[j - 1], trace[j - 1 + 1]);
      StepKeepsInv(trace[j - 1], trace[j]);
    }
  }

  lemma TraceExtends(trace: seq<Local>, step: Step)
    requires IsTrace(trace) && Allowed(trace[|trace| - 1], step)
    ensures IsTrace(trace + [Do(trace[|trace| - 1], step)])
  {
    hide EnrollmentInv, Allowed, Do;
    var t := Do(trace[|trace| - 1], step);
    var all := trace + [t];
    forall i | 0 <= i < |all| - 1 ensures OneStep(all[i], all[i + 1]) {
      if i < |trace| - 1 {
        assert OneStep(trace[i], trace[i + 1]);
      } else {
        assert all[i] == trace[|trace| - 1] && all[i + 1] == t;
      }
    }
  }
}
