/** Intake of work items: one Matter per source, and a receipt per idempotency key. Digests are injective, so
    a digest is represented by what it digests. */
module IntakeSpec {
  import opened Common

  type Text = string
  type Instant = int

  datatype Content = Content(source: Text, title: Text, summary: Text, priority: int, tags: seq<Text>, dueAt: Option<Text>)

  /** `dueParses`: the due date, if any, parses as a date. `merge`: an existing Matter is named. */
  datatype Input = Input(tenantId: Text, userId: Text, key: Text, content: Content, dueParses: bool, merge: bool)

  datatype MatterId = MatterId(tenantId: Text, userId: Text, source: Text)

  datatype Status = Open | Waiting | Terminal(name: Text)

  datatype Matter = Matter(id: MatterId, status: Status, content: Content, createdAt: Instant, updatedAt: Instant)

  datatype IntakeReceipt = IntakeReceipt(digest: Content, matter: MatterId, recordedAt: Instant)

  /** The rows of the Matter table in insertion order, and the receipts by idempotency key. */
  datatype Intake = Intake(tenantId: Text, userId: Text, rows: seq<Matter>, receipts: map<Text, IntakeReceipt>)

  datatype IntakeError = WrongScope | MergeUnsupported | InputInvalid | KeyReused | MatterLost | TerminalMatter

  datatype Accepted = Accepted(matter: Matter, inserted: bool, changed: bool)

  predicate Blank(s: Text) {
    forall i :: 0 <= i < |s| ==> WhiteSpace(s[i])
  }

  predicate TextOk(s: Text, limit: nat) {
    !Blank(s) && |s| <= limit
  }

  predicate InputOk(input: Input) {
    var c := input.content;
    && TextOk(c.source, 500) && TextOk(input.key, 1000) && TextOk(c.title, 300) && TextOk(c.summary, 5000)
    && (c.priority == 1 || c.priority == 3 || c.priority == 5)
    && |c.tags| <= 20 && (forall i :: 0 <= i < |c.tags| ==> TextOk(c.tags[i], 64))
    && input.dueParses
  }

  /** The first row of a source, or the length of the table. */
  function RowOfSource(rows: seq<Matter>, source: Text): (i: nat)
    ensures i <= |rows| && (i < |rows| ==> rows[i].content.source == source)
    ensures forall j :: 0 <= j < i ==> rows[j].content.source != source
  {
    if rows == [] || rows[0].content.source == source then 0
    else
      var i := RowOfSource(rows[1..], source);
      assert forall j :: 0 <= j < |rows| - 1 ==> rows[1..][j] == rows[j + 1];
      1 + i
  }

  function RowOfId(rows: seq<Matter>, id: MatterId): (i: nat)
    ensures i <= |rows| && (i < |rows| ==> rows[i].id == id)
    ensures forall j :: 0 <= j < i ==> rows[j].id != id
  {
    if rows == [] || rows[0].id == id then 0
    else
      var i := RowOfId(rows[1..], id);
      assert forall j :: 0 <= j < |rows| - 1 ==> rows[1..][j] == rows[j + 1];
      1 + i
  }

  function NewId(db: Intake, source: Text): MatterId {
    MatterId(db.tenantId, db.userId, source)
  }

  /** One intake call. The whole call is a transaction: when it throws nothing changes. */
  function Upsert(db: Intake, input: Input, now: Instant): (Intake, Result<Accepted, IntakeError>) {
    var c := input.content;
    if input.tenantId != db.tenantId || input.userId != db.userId then (db, Err(WrongScope))
    else if input.merge then (db, Err(MergeUnsupported))
    else if !InputOk(input) then (db, Err(InputInvalid))
    else if input.key in db.receipts then
      var prior := db.receipts[input.key];
      var at := RowOfId(db.rows, prior.matter);
      if prior.digest != c then (db, Err(KeyReused))
      else if at == |db.rows| then (db, Err(MatterLost))
      else (db, Ok(Accepted(db.rows[at], false, false)))
    else
      var i := RowOfSource(db.rows, c.source);
      if i < |db.rows| then
        var existing := db.rows[i];
        if existing.status.Terminal? then (db, Err(TerminalMatter))
        else
          var changed := existing.content != c;
          var row := if changed then existing.(content := c, updatedAt := now) else existing;
          var receipt := IntakeReceipt(c, existing.id, now);
          (db.(rows := db.rows[i := row], receipts := db.receipts[input.key := receipt]), Ok(Accepted(row, false, changed)))
      else
        var row := Matter(NewId(db, c.source), Open, c, now, now);
        (db.(rows := db.rows + [row], receipts := db.receipts[input.key := IntakeReceipt(c, row.id, now)]),
         Ok(Accepted(row, true, true)))
  }
}
