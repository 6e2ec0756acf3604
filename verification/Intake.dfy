/** The intake tables as the client updates them. */
module IntakeTables {
  import opened Common
  import opened IntakeSpec
  import Proofs = IntakeProofs

  class IntakeStore {
    const tenantId: Text
    const userId: Text
    var rows: seq<Matter>
    var receipts: map<Text, IntakeReceipt>

    constructor (tenantId: Text, userId: Text)
      ensures View() == Intake(tenantId, userId, [], map[]) && Proofs.IntakeInv(View())
    {
      this.tenantId, this.userId, rows, receipts := tenantId, userId, [], map[];
    }

    function View(): Intake
      reads this
    {
      Intake(tenantId, userId, rows, receipts)
    }

    /** A read of one Matter; `None` when there is none. */
    method IntakeMatter(id: MatterId) returns (matter: Option<Matter>)
      ensures matter == if RowOfId(rows, id) < |rows| then Some(rows[RowOfId(rows, id)]) else None
    {
      for i := 0 to |rows|
        invariant RowOfId(rows, id) >= i
      {
        if rows[i].id == id { return Some(rows[i]); }
      }
      matter := None;
    }

    method UpsertIntakeMatter(input: Input, now: Instant) returns (r: Result<Accepted, IntakeError>)
      modifies this
      ensures (View(), r) == Upsert(old(View()), input, now)
      ensures old(Proofs.IntakeInv(View())) ==> Proofs.IntakeInv(View())
    {
      hide InputOk, Proofs.IntakeInv;
      if Proofs.IntakeInv(View()) {
        Proofs.StepKeepsInv(View(), Proofs.Call(input, now));
      }
      if input.tenantId != tenantId || input.userId != userId { return Err(WrongScope); }
      if input.merge { return Err(MergeUnsupported); }
      if !InputOk(input) { return Err(InputInvalid); }
      var c := input.content;
      if input.key in receipts {
        var prior := receipts[input.key];
        if prior.digest != c { return Err(KeyReused); }
        var matter := IntakeMatter(prior.matter);
        if matter == None { return Err(MatterLost); }
        return Ok(Accepted(matter.value, false, false));
      }
      var i := RowOfSource(rows, c.source);
      var inserted, changed := i == |rows|, true;
      if inserted {
        rows := rows + [Matter(MatterId(tenantId, userId, c.source), Open, c, now, now)];
      } else {
        var existing := rows[i];
        if existing.status.Terminal? { return Err(TerminalMatter); }
        changed := existing.content != c;
        if changed {
          rows := rows[i := existing.(content := c, updatedAt := now)];
        }
        assert rows == old(rows)[i := rows[i]];
      }
      receipts := receipts[input.key := IntakeReceipt(c, rows[i].id, now)];
      r := Ok(Accepted(rows[i], inserted, changed));
    }
  }
}
