/** The enrollment client with its row and secrets. The ghost field records every durable state it has been
    in, so what is proved of the trace holds wherever a crash falls; every call may start from any of them. */
module EnrollmentClient {
  import opened Common
  import opened EnrollmentSpec
  import Spec = EnrollmentSpec

  datatype Request = Request(requestId: Id, token: string, expiresAt: Instant, wellFormed: bool)

  datatype Remote = StillPending | Decided(verdict: Verdict)

  /** `drifted`: wrong shape, or another request, device or expiry than the local one. */
  datatype Status = Status(remote: Remote, drifted: bool)

  datatype EnrollmentError =
    | ServerFailed | RequestInvalid | SecretStoreFailed | SaveFailed | NoEnrollment | NoCredential | StatusDrifted

  class DeviceEnrollment {
    const device: Id
    var row: Option<Enrollment>
    var secrets: map<Id, string>
    ghost var trace: seq<Local>

    ghost predicate Valid()
      reads this
    {
      IsTrace(trace) && View() == trace[|trace| - 1]
    }

    function View(): Local
      reads this
    {
      Local(device, row, secrets)
    }

    constructor (device: Id)
      ensures Valid() && View() == Local(device, None, map[])
    {
      this.device, row, secrets := device, None, map[];
      trace := [Local(device, None, map[])];
    }

    method Write(step: Step)
      requires Valid() && Allowed(View(), step)
      modifies this
      ensures Valid() && View() == Do(old(View()), step) && trace == old(trace) + [View()]
    {
      TraceExtends(trace, step);
      match step {
        case PutSecret(ref, token) => secrets := secrets[ref := token];
        case DropSecret(ref) => secrets := secrets - {ref};
        case SaveRow(r) => row := Some(r);
        case Advance(stage, now) => row := Some(row.value.(stage := stage, updatedAt := now));
        case ClearRow => row := None;
      }
      trace := trace + [View()];
    }

    /** `answer` is what the server gives, `refs` how a secret is named after a request; the secret store and
        the database may fail. */
    method Begin(now: Instant, answer: Option<Request>, refs: Id -> Id, putFails: bool, saveFails: bool, takeBackFails: bool)
      returns (r: Result<Enrollment, EnrollmentError>)
      requires Valid()
      modifies this
      ensures Valid() && old(trace) <= trace
      ensures old(row.Some? && row.value.stage != Final(Expired)) ==> View() == old(View()) && r == Ok(row.value)
      ensures old(row == None || row.value.stage == Final(Expired)) ==>
        && (r.Ok? <==> answer.Some? && answer.value.wellFormed && answer.value.expiresAt > now && !putFails && !saveFails)
        && (r.Ok? ==> row == Some(r.value))
        && (r.Ok? ==> r.value == Enrollment(answer.value.requestId, device, refs(answer.value.requestId), answer.value.expiresAt, Pending, now))
        && (r.Ok? ==> secrets == old(secrets)[refs(answer.value.requestId) := answer.value.token])
        && (r.Err? ==> row == None)
        && (r.Err? && !takeBackFails ==> forall ref :: ref in secrets ==> ref in old(secrets))
    {
      hide IsTrace;
      if row.Some? {
        if row.value.stage == Final(Expired) {
          Write(ClearRow);
        } else {
          return Ok(row.value);
        }
      }
      if answer == None { return Err(ServerFailed); }
      var request := answer.value;
      if !request.wellFormed || request.expiresAt <= now { return Err(RequestInvalid); }
      var ref := refs(request.requestId);
      if putFails { return Err(SecretStoreFailed); }
      Write(PutSecret(ref, request.token));
      if saveFails {
        if takeBackFails { return Err(SecretStoreFailed); }
        Write(DropSecret(ref));
        return Err(SaveFailed);
      }
      var saved := Enrollment(request.requestId, device, ref, request.expiresAt, Pending, now);
      Write(SaveRow(saved));
      r := Ok(saved);
    }

    /** Polls the server while pending; once there is a verdict only the clean-up is left, and the server is
        not asked again. */
    method Poll(now: Instant, answer: Option<Status>, removeFails: bool) returns (r: Result<Enrollment, EnrollmentError>, asked: bool)
      requires Valid()
      modifies this
      ensures Valid() && old(trace) <= trace
      ensures asked <==> old(row.Some? && row.value.stage == Pending)
      ensures old(row == None) ==> r == Err(NoEnrollment) && View() == old(View())
      ensures old(row.Some? && row.value.stage.Final?) ==> View() == old(View()) && r == Ok(row.value)
      ensures old(row.Some? && row.value.stage.CleaningUp?) ==>
        && (r.Ok? <==> !removeFails)
        && (r.Ok? ==> row == Some(r.value) && r.value.stage == Final(old(row).value.stage.verdict))
        && (r.Err? ==> r == Err(SecretStoreFailed) && View() == old(View()))
      ensures old(row.Some? && row.value.stage == Pending) && answer.Some? && !answer.value.drifted ==>
        match answer.value.remote
        case StillPending => View() == old(View()) && r == Ok(row.value)
        case Decided(v) =>
          VerdictOf(View()) == Some(v) && (r.Ok? <==> !removeFails) && (r.Ok? ==> row == Some(r.value) && r.value.stage == Final(v))
      ensures old(row.Some? && row.value.stage == Pending) && (answer == None || answer.value.drifted) ==>
        View() == old(View()) && r == Err(if answer == None then ServerFailed else StatusDrifted)
    {
      hide IsTrace;
      asked := false;
      if row == None { return Err(NoEnrollment), false; }
      if row.value.stage.Final? { return Ok(row.value), false; }
      if row.value.stage == Pending {
        SecretThere();
        asked := true;
        if answer == None { return Err(ServerFailed), true; }
        if answer.value.drifted { return Err(StatusDrifted), true; }
        if answer.value.remote == StillPending { return Ok(row.value), true; }
        Write(Advance(CleaningUp(answer.value.remote.verdict), now));
      }
      var cleaned := CleanUp(now, removeFails);
      r := cleaned;
    }

    /** The credential of a pending row is always there. */
    lemma SecretThere()
      requires Valid() && row.Some? && row.value.stage == Pending
      ensures row.value.secretRef in secrets
    {
      InvAtEveryCrash(trace, |trace| - 1);
    }

    method CleanUp(now: Instant, removeFails: bool) returns (r: Result<Enrollment, EnrollmentError>)
      requires Valid() && row.Some? && row.value.stage.CleaningUp?
      modifies this
      ensures Valid() && old(trace) <= trace
      ensures r.Ok? <==> !removeFails
      ensures r.Err? ==> r == Err(SecretStoreFailed) && View() == old(View())
      ensures r.Ok? ==>
        && row == Some(r.value) && r.value == old(row).value.(stage := Final(old(row).value.stage.verdict), updatedAt := now)
        && secrets == old(secrets) - {r.value.secretRef}
    {
      hide IsTrace;
      if removeFails { return Err(SecretStoreFailed); }
      var verdict := row.value.stage.verdict;
      Write(DropSecret(row.value.secretRef));
      Write(Advance(Final(verdict), now));
      r := Ok(row.value);
    }
  }
}
