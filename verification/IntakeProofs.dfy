/** What holds after every history of intake calls, with the status of Matters changing in between. */
module IntakeProofs {
  import opened Common
  import opened IntakeSpec

  /** A Matter's id names its source, and every source has at most one Matter. */
  ghost predicate RowsInv(db: Intake) {
    && (forall i :: 0 <= i < |db.rows| ==> db.rows[i].id == NewId(db, db.rows[i].content.source))
    && (forall i, j :: 0 <= i < j < |db.rows| ==> db.rows[i].content.source != db.rows[j].content.source)
  }

  predicate HasMatter(rows: seq<Matter>, id: MatterId) {
    RowOfId(rows, id) < |rows|
  }

  /** Every receipt points at the Matter of the source it digests, and that Matter exists. */
  ghost predicate ReceiptsInv(db: Intake) {
    forall k :: k in db.receipts ==>
      db.receipts[k].matter == NewId(db, db.receipts[k].digest.source) && HasMatter(db.rows, db.receipts[k].matter)
  }

  ghost predicate IntakeInv(db: Intake) {
    RowsInv(db) && ReceiptsInv(db)
  }

  /** A status changes by other means than intake. */
  function ChangeStatus(db: Intake, id: MatterId, status: Status): Intake {
    var i := RowOfId(db.rows, id);
    if i == |db.rows| then db else db.(rows := db.rows[i := db.rows[i].(status := status)])
  }

  datatype Event = Call(input: Input, now: Instant) | StatusChange(id: MatterId, status: Status)

  function After(db: Intake, e: Event): Intake {
    match e
    case Call(input, now) => Upsert(db, input, now).0
    case StatusChange(id, status) => ChangeStatus(db, id, status)
  }

  function History(db: Intake, events: seq<Event>): Intake
    decreases |events|
  {
    if events == [] then db else History(After(db, events[0]), events[1..])
  }

  /** No row is lost or moved to another source, and no receipt changes. */
  ghost predicate Grows(db: Intake, after: Intake) {
    && after.tenantId == db.tenantId && after.userId == db.userId
    && (forall id :: HasMatter(db.rows, id) ==> HasMatter(after.rows, id))
    && (forall k :: k in db.receipts ==> k in after.receipts && after.receipts[k] == db.receipts[k])
  }

  lemma RowUpdateKeeps(db: Intake, i: nat, row: Matter)
    requires RowsInv(db) && i < |db.rows| && row.id == db.rows[i].id && row.content.source == db.rows[i].content.source
    ensures RowsInv(db.(rows := db.rows[i := row]))
    ensures forall id :: HasMatter(db.rows, id) <==> HasMatter(db.rows[i := row], id)
  {
    var after := db.rows[i := row];
    forall id ensures HasMatter(db.rows, id) <==> HasMatter(after, id) {
      var a, b := RowOfId(db.rows, id), RowOfId(after, id);
      assert a < |db.rows| ==> after[a].id == id;
      assert b < |after| ==> db.rows[b].id == id;
    }
  }

  lemma RowAppendKeeps(db: Intake, row: Matter)
    requires RowsInv(db) && row.id == NewId(db, row.content.source) && RowOfSource(db.rows, row.content.source) == |db.rows|
    ensures RowsInv(db.(rows := db.rows + [row]))
    ensures HasMatter(db.rows + [row], row.id)
    ensures forall id :: HasMatter(db.rows, id) ==> HasMatter(db.rows + [row], id)
  {
    var after := db.rows + [row];
    assert after[|db.rows|] == row;
    forall id | HasMatter(db.rows, id) ensures HasMatter(after, id) {
      assert after[RowOfId(db.rows, id)].id == id;
    }
  }

  lemma ReceiptKeeps(db: Intake, rows: seq<Matter>, key: Text, r: IntakeReceipt)
    requires IntakeInv(db) && RowsInv(db.(rows := rows)) && forall id :: HasMatter(db.rows, id) ==> HasMatter(rows, id)
    requires key !in db.receipts && r.matter == NewId(db, r.digest.source) && HasMatter(rows, r.matter)
    ensures IntakeInv(db.(rows := rows, receipts := db.receipts[key := r]))
    ensures Grows(db, db.(rows := rows, receipts := db.receipts[key := r]))
  {
    hide HasMatter;
  }

  lemma StepKeepsInv(db: Intake, e: Event)
    requires IntakeInv(db)
    ensures IntakeInv(After(db, e)) && Grows(db, After(db, e))
  {
    hide InputOk, HasMatter;
    match e
    case StatusChange(id, status) =>
      var i := RowOfId(db.rows, id);
      if i < |db.rows| {
        RowUpdateKeeps(db, i, db.rows[i].(status := status));
      }
    case Call(input, now) => CallKeepsInv(db, input, now);
  }

  lemma CallKeepsInv(db: Intake, input: Input, now: Instant)
    requires IntakeInv(db)
    ensures IntakeInv(Upsert(db, input, now).0) && Grows(db, Upsert(db, input, now).0)
  {
    hide InputOk, HasMatter, Grows, ReceiptsInv;
    assert Grows(db, db) by { GrowsNot(db); }
    var (after, r) := Upsert(db, input, now);
    var i := RowOfSource(db.rows, input.content.source);
    if r.Ok? && input.key !in db.receipts {
      if i < |db.rows| {
        RowUpdateKeeps(db, i, after.rows[i]);
        RowHasMatter(db, i);
      } else {
        RowAppendKeeps(db, after.rows[|db.rows|]);
      }
      ReceiptKeeps(db, after.rows, input.key, after.receipts[input.key]);
    }
  }

  lemma GrowsNot(db: Intake)
    ensures Grows(db, db)
  {
  }

  lemma RowHasMatter(db: Intake, i: nat)
    requires i < |db.rows|
    ensures HasMatter(db.rows, db.rows[i].id)
  {
  }

  /** After any history there is one Matter per source and every receipt points at an existing Matter. */
  lemma {:induction false} HistoryKeepsInvariant(db: Intake, events: seq<Event>)
    requires IntakeInv(db)
    ensures IntakeInv(History(db, events)) && Grows(db, History(db, events))
    decreases |events|
  {
    hide IntakeInv, After;
    if events != [] {
      StepKeepsInv(db, events[0]);
      HistoryKeepsInvariant(After(db, events[0]), events[1..]);
    }
  }

  lemma EmptyIntake(tenantId: Text, userId: Text)
    ensures IntakeInv(Intake(tenantId, userId, [], map[]))
  {
  }

  lemma AcceptedRecorded(db: Intake, input: Input, now: Instant)
    requires IntakeInv(db)
    ensures var (after, r) := Upsert(db, input, now);
            r.Ok? ==>
              && InputOk(input) && !input.merge && input.tenantId == after.tenantId && input.userId == after.userId
              && input.key in after.receipts && after.receipts[input.key].digest == input.content
              && r.value.matter.id == NewId(db, input.content.source)
  {
    hide InputOk, HasMatter;
    if input.key in db.receipts {
      assert HasMatter(db.rows, db.receipts[input.key].matter);
    }
  }

  /** A call with a new key stores exactly its content in the Matter of its source, which stays open or
      waiting and keeps its identity and creation time; no other Matter is touched. It is an insertion when
      the source had none, and a change when the content differed. */
  lemma AcceptedIsStored(db: Intake, input: Input, now: Instant)
    requires IntakeInv(db) && input.key !in db.receipts && Upsert(db, input, now).1.Ok?
    ensures var (after, r) := Upsert(db, input, now); var c := input.content; var i := RowOfSource(db.rows, c.source);
            && |db.rows| <= |after.rows| && i < |after.rows| && after.rows[i] == r.value.matter
            && r.value.matter.content == c && !r.value.matter.status.Terminal?
            && (forall k :: 0 <= k < |db.rows| && k != i ==> after.rows[k] == db.rows[k])
            && after.receipts == db.receipts[input.key := IntakeReceipt(c, r.value.matter.id, now)]
            && (r.value.inserted <==> i == |db.rows|)
            && (i == |db.rows| ==> r.value.changed && r.value.matter == Matter(NewId(db, c.source), Open, c, now, now) && |after.rows| == i + 1)
            && (i < |db.rows| ==>
                  && r.value.matter.(content := c, updatedAt := 0) == db.rows[i].(content := c, updatedAt := 0)
                  && (r.value.changed <==> db.rows[i].content != c)
                  && r.value.matter.updatedAt == if r.value.changed then now else db.rows[i].updatedAt)
  {
    hide InputOk, ReceiptsInv;
  }

  /** A call succeeds exactly for a well-formed input of this user that names no other Matter, if its key is new and the
      Matter of its source, if any, not closed, or its key stands for this very content; a refused call changes
      nothing. */
  lemma UpsertSucceeds(db: Intake, input: Input, now: Instant)
    requires IntakeInv(db)
    ensures var (after, r) := Upsert(db, input, now); var i := RowOfSource(db.rows, input.content.source);
            && (r.Ok? <==>
                  && input.tenantId == db.tenantId && input.userId == db.userId && !input.merge && InputOk(input)
                  && if input.key in db.receipts then db.receipts[input.key].digest == input.content
                     else i < |db.rows| ==> !db.rows[i].status.Terminal?)
            && (r.Err? || input.key in db.receipts ==> after == db)
  {
    hide InputOk, HasMatter;
    if input.key in db.receipts { assert HasMatter(db.rows, db.receipts[input.key].matter); HasMatterAt(db.rows, db.receipts[input.key].matter); }
  }

  lemma HasMatterAt(rows: seq<Matter>, id: MatterId)
    ensures HasMatter(rows, id) <==> RowOfId(rows, id) < |rows|
  {
  }

  lemma RecordedReplays(db: Intake, input: Input, now: Instant)
    requires IntakeInv(db) && InputOk(input) && !input.merge && input.tenantId == db.tenantId && input.userId == db.userId
    requires input.key in db.receipts && db.receipts[input.key].digest == input.content
    ensures var (after, r) := Upsert(db, input, now);
            && after == db && r.Ok? && !r.value.inserted && !r.value.changed
            && r.value.matter in db.rows && r.value.matter.id == NewId(db, input.content.source)
  {
    hide InputOk;
  }

  /** Replaying a call that succeeded, after whatever has happened since (updates by later calls and closed
      Matters included), succeeds, returns the source's Matter as it is now, and changes nothing. */
  lemma ReplayChangesNothing(db: Intake, input: Input, now: Instant, events: seq<Event>, later: Instant)
    requires IntakeInv(db) && Upsert(db, input, now).1.Ok?
    ensures var grown := History(Upsert(db, input, now).0, events);
            var (after, r) := Upsert(grown, input, later);
            && after == grown && r.Ok? && !r.value.inserted && !r.value.changed
            && r.value.matter in grown.rows && r.value.matter.id == Upsert(db, input, now).1.value.matter.id
  {
    hide IntakeInv, After, InputOk, Upsert;
    AcceptedRecorded(db, input, now);
    StepKeepsInv(db, Call(input, now));
    assert After(db, Call(input, now)) == Upsert(db, input, now).0 by { CallIsUpsert(db, input, now); }
    var first := Upsert(db, input, now).0;
    HistoryKeepsInvariant(first, events);
    RecordedReplays(History(first, events), input, later);
  }

  lemma CallIsUpsert(db: Intake, input: Input, now: Instant)
    ensures After(db, Call(input, now)) == Upsert(db, input, now).0
  {
  }

  /** A key that stands for other content is refused for good. */
  lemma KeyStandsForOneContent(db: Intake, input: Input, now: Instant, events: seq<Event>, other: Input, later: Instant)
    requires IntakeInv(db) && Upsert(db, input, now).1.Ok? && other.key == input.key && other.content != input.content
    ensures var grown := History(Upsert(db, input, now).0, events);
            Upsert(grown, other, later).0 == grown && Upsert(grown, other, later).1.Err?
  {
    hide IntakeInv, InputOk;
    AcceptedRecorded(db, input, now);
    StepKeepsInv(db, Call(input, now));
    HistoryKeepsInvariant(Upsert(db, input, now).0, events);
  }
}
