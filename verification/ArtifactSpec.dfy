/** The content-addressed artifact store: blobs, receipts, database rows and the selected version of each
    capability. Every operation is a list of durable steps, so a crash leaves a prefix of them done. */
module ArtifactSpec {
  import opened Common

  type Digest = string
  type DeviceId = string
  type Instant = int

  datatype Key = Key(id: string, version: string)

  datatype Receipt = Receipt(planId: string, key: Key, digest: Digest, device: DeviceId, installedAt: Instant)

  datatype Row = Row(digest: Digest, device: DeviceId, updatedAt: Instant)

  datatype Selection = Selection(current: string, previous: Option<string>, updatedAt: Instant)

  /** A blob file is its name and the digest of its content. `device` is the identity of the database. */
  datatype Store = Store(
    device: DeviceId, blobs: map<Digest, Digest>, receipts: map<Key, Receipt>,
    rows: map<Key, Row>, selections: map<string, Selection>)

  /** `inactive`: not loadable, not runnable, no external writes, and aimed at the inactive state. */
  datatype InstallPlan = InstallPlan(planId: string, device: DeviceId, key: Key, digest: Digest, inactive: bool)

  datatype StoreError =
    | PlanInvalid | SourceNotRegular | SourceMismatch | BlobDiffers | ReceiptImmutable | RowRefused | RowImmutable
    | IdentityInvalid | NotInstalled | ReceiptMissing | ReceiptMismatch | BlobMissing | BlobCorrupt
    | RowDrifted | SelectionDrifted | NotSelectable | NothingToUpgrade | NothingToRollBack

  // ---- Texts ----

  predicate Digit(c: char) { '0' <= c <= '9' }

  predicate LowerOrDigit(c: char) { 'a' <= c <= 'z' || Digit(c) }

  predicate SegmentText(s: string) {
    1 <= |s| <= 64 && LowerOrDigit(s[0]) && forall i :: 1 <= i < |s| ==> LowerOrDigit(s[i]) || s[i] == '.' || s[i] == '-'
  }

  function FirstSlash(s: string): (n: nat)
    ensures n <= |s|
  {
    if s == [] || s[0] == '/' then 0 else 1 + FirstSlash(s[1..])
  }

  /** What the artifact store accepts: one name, or two joined by a slash. */
  predicate CapabilityText(s: string) {
    SegmentText(s) || (FirstSlash(s) < |s| && SegmentText(s[..FirstSlash(s)]) && SegmentText(s[FirstSlash(s) + 1..]))
  }

  /** What the database accepts. */
  predicate RowIdText(s: string) {
    && 1 <= |s| <= 128 && LowerOrDigit(s[0])
    && forall i :: 1 <= i < |s| ==> LowerOrDigit(s[i]) || s[i] == '.' || s[i] == '-' || s[i] == '/'
  }

  function DigitRun(s: string): (n: nat)
    ensures n <= |s|
  {
    if s == [] || !Digit(s[0]) then 0 else 1 + DigitRun(s[1..])
  }

  predicate TagText(s: string) {
    s == [] || (|s| >= 2 && s[0] == '-'
      && forall i :: 1 <= i < |s| ==> LowerOrDigit(s[i]) || 'A' <= s[i] <= 'Z' || s[i] == '.' || s[i] == '-')
  }

  /** Three numbers separated by dots, and perhaps a tag. */
  predicate VersionText(s: string) {
    var a := DigitRun(s);
    && 0 < a < |s| && s[a] == '.'
    && var t := s[a + 1..];
       var b := DigitRun(t);
       && 0 < b < |t| && t[b] == '.'
       && var u := t[b + 1..];
          0 < DigitRun(u) && TagText(u[DigitRun(u)..])
  }

  predicate DigestText(s: string) {
    |s| == 71 && s[..7] == "sha256:" && forall i :: 7 <= i < 71 ==> Digit(s[i]) || 'a' <= s[i] <= 'f'
  }

  predicate PlanOk(plan: InstallPlan) {
    && CapabilityText(plan.key.id) && VersionText(plan.key.version) && plan.planId != "" && DigestText(plan.digest)
    && plan.device != "" && '/' !in plan.device && '\\' !in plan.device && plan.inactive
  }

  // ---- Durable steps ----

  datatype Step =
    | PutBlob(digest: Digest)
    | PutReceipt(receipt: Receipt)
    | PutRow(key: Key, row: Row)
    | PutSelection(id: string, selection: Selection)
    | DropRow(key: Key, left: Option<Selection>)
    | DropReceipt(key: Key)
    | DropBlob(digest: Digest)

  function WithSelection(m: map<string, Selection>, id: string, s: Option<Selection>): map<string, Selection> {
    if s.Some? then m[id := s.value] else m - {id}
  }

  function Do(s: Store, step: Step): Store {
    match step
    case PutBlob(d) => s.(blobs := s.blobs[d := d])
    case PutReceipt(r) => s.(receipts := s.receipts[r.key := r])
    case PutRow(k, row) => s.(rows := s.rows[k := row])
    case PutSelection(id, sel) => s.(selections := s.selections[id := sel])
    case DropRow(k, left) => s.(rows := s.rows - {k}, selections := WithSelection(s.selections, k.id, left))
    case DropReceipt(k) => s.(receipts := s.receipts - {k})
    case DropBlob(d) => s.(blobs := s.blobs - {d})
  }

  function Run(s: Store, steps: seq<Step>): Store
    decreases |steps|
  {
    if steps == [] then s else Run(Do(s, steps[0]), steps[1..])
  }

  /** The durable steps of a call, in order, and what it returns or throws after the last of them. */
  datatype Outcome<+T> = Outcome(steps: seq<Step>, result: Result<T, StoreError>)

  // ---- Reading ----

  /** The row of a version; a row another device wrote, or with a malformed digest, counts as drifted. */
  function Capability(s: Store, k: Key): Result<Option<Row>, StoreError> {
    if !RowIdText(k.id) || !VersionText(k.version) then Err(IdentityInvalid)
    else if k !in s.rows then Ok(None)
    else if s.rows[k].device != s.device || !DigestText(s.rows[k].digest) then Err(RowDrifted)
    else Ok(Some(s.rows[k]))
  }

  predicate Present(s: Store, k: Key) {
    Capability(s, k).Ok? && Capability(s, k).value.Some?
  }

  function SelectionOf(s: Store, id: string): Result<Option<Selection>, StoreError> {
    if !RowIdText(id) then Err(IdentityInvalid)
    else if id !in s.selections then Ok(None)
    else
      var sel := s.selections[id];
      if !Present(s, Key(id, sel.current)) || (sel.previous.Some? && !Present(s, Key(id, sel.previous.value)))
      then Err(SelectionDrifted) else Ok(Some(sel))
  }

  function VerifyInstalled(s: Store, k: Key): Result<Receipt, StoreError> {
    if !CapabilityText(k.id) || !VersionText(k.version) then Err(IdentityInvalid)
    else
      var row := Capability(s, k);
      if row.Err? then Err(row.error)
      else if row.value == None then Err(NotInstalled)
      else if k !in s.receipts then Err(ReceiptMissing)
      else
        var r := s.receipts[k];
        if r.key != k || r.digest != row.value.value.digest || r.device != row.value.value.device then Err(ReceiptMismatch)
        else if r.digest !in s.blobs then Err(BlobMissing)
        else if s.blobs[r.digest] != r.digest then Err(BlobCorrupt)
        else Ok(r)
  }

  // ---- Installing ----

  function LandBlob(s: Store, d: Digest): Outcome<()> {
    if d in s.blobs then Outcome([], if s.blobs[d] == d then Ok(()) else Err(BlobDiffers))
    else Outcome([PutBlob(d)], Ok(()))
  }

  function PersistReceipt(s: Store, r: Receipt): Outcome<Receipt> {
    if r.key in s.receipts then
      var e := s.receipts[r.key];
      Outcome([], if e.(installedAt := r.installedAt) == r then Ok(e) else Err(ReceiptImmutable))
    else Outcome([PutReceipt(r)], Ok(r))
  }

  function SaveRow(s: Store, k: Key, row: Row): Outcome<()> {
    if !RowIdText(k.id) || !VersionText(k.version) || !DigestText(row.digest) || row.device != s.device then
      Outcome([], Err(RowRefused))
    else if k in s.rows then Outcome([], if s.rows[k] == row then Ok(()) else Err(RowImmutable))
    else Outcome([PutRow(k, row)], Ok(()))
  }

  function Select(s: Store, k: Key, now: Instant): Outcome<Selection> {
    if Capability(s, k).Err? then Outcome([], Err(Capability(s, k).error))
    else if !Present(s, k) then Outcome([], Err(NotSelectable))
    else
      var current := SelectionOf(s, k.id);
      if current.Err? then Outcome([], Err(current.error))
      else if current.value.Some? && current.value.value.current == k.version then Outcome([], Ok(current.value.value))
      else
        var previous := if current.value.Some? then Some(current.value.value.current) else None;
        var next := Selection(k.version, previous, now);
        Outcome([PutSelection(k.id, next)], Ok(next))
  }

  function SelectIfNone(s: Store, k: Key, now: Instant): Outcome<()> {
    var current := SelectionOf(s, k.id);
    if current.Err? then Outcome([], Err(current.error))
    else if current.value.Some? then Outcome([], Ok(()))
    else
      var o := Select(s, k, now);
      Outcome(o.steps, if o.result.Ok? then Ok(()) else Err(o.result.error))
  }

  function NewReceipt(plan: InstallPlan, now: Instant): Receipt {
    Receipt(plan.planId, plan.key, plan.digest, plan.device, now)
  }

  /** One call after another: the second sees what the first has done, and does not happen if it throws. */
  function Chain<A, B>(first: Outcome<A>, second: Outcome<B>): Outcome<B> {
    if first.result.Err? then Outcome(first.steps, Err(first.result.error))
    else Outcome(first.steps + second.steps, second.result)
  }

  /** `source` is the digest of the file offered, if it is a regular file. */
  function CheckSource(plan: InstallPlan, source: Option<Digest>): Outcome<()> {
    Outcome([],
      if !PlanOk(plan) then Err(PlanInvalid)
      else if source == None then Err(SourceNotRegular)
      else if source.value != plan.digest then Err(SourceMismatch)
      else Ok(()))
  }

  function RecordInstall(s: Store, plan: InstallPlan, receipt: Receipt, now: Instant): Outcome<Receipt> {
    var row := SaveRow(s, plan.key, Row(plan.digest, plan.device, receipt.installedAt));
    var selected := SelectIfNone(Run(s, row.steps), plan.key, now);
    Chain(row, Chain(selected, Outcome([], Ok(receipt))))
  }

  function PersistAndRecord(s: Store, plan: InstallPlan, now: Instant): Outcome<Receipt> {
    var receipt := PersistReceipt(s, NewReceipt(plan, now));
    if receipt.result.Err? then receipt
    else Chain(receipt, RecordInstall(Run(s, receipt.steps), plan, receipt.result.value, now))
  }

  function Install(s: Store, plan: InstallPlan, source: Option<Digest>, now: Instant): Outcome<Receipt> {
    var landed := LandBlob(s, plan.digest);
    Chain(CheckSource(plan, source), Chain(landed, PersistAndRecord(Run(s, landed.steps), plan, now)))
  }

  function Upgrade(s: Store, plan: InstallPlan, source: Option<Digest>, now: Instant): Outcome<Selection> {
    var current := SelectionOf(s, plan.key.id);
    if current.Err? then Outcome([], Err(current.error))
    else if current.value == None || current.value.value.current == plan.key.version then Outcome([], Err(NothingToUpgrade))
    else
      var installed := Install(s, plan, source, now);
      Chain(installed, Select(Run(s, installed.steps), plan.key, now))
  }

  // ---- Rolling back and uninstalling ----

  function Rollback(s: Store, id: string, now: Instant): Outcome<Selection> {
    var current := SelectionOf(s, id);
    if current.Err? then Outcome([], Err(current.error))
    else if current.value == None || current.value.value.previous == None then Outcome([], Err(NothingToRollBack))
    else
      var sel := current.value.value;
      var verified := VerifyInstalled(s, Key(id, sel.previous.value));
      if verified.Err? then Outcome([], Err(verified.error))
      else
        var next := Selection(sel.previous.value, Some(sel.current), now);
        Outcome([PutSelection(id, next)], Ok(next))
  }

  /** The selection left when a version goes. */
  function Unselected(sel: Selection, version: string, now: Instant): Option<Selection> {
    if sel.current == version then
      if sel.previous.Some? then Some(Selection(sel.previous.value, None, now)) else None
    else if sel.previous == Some(version) then Some(Selection(sel.current, None, now))
    else Some(sel)
  }

  datatype Removal = Removal(selected: Option<string>, blobRemoved: bool, cleanupPending: bool)

  predicate RowsReadable(s: Store) {
    forall k :: k in s.rows ==> Present(s, k)
  }

  predicate Used(s: Store, d: Digest) {
    exists k :: k in s.rows && s.rows[k].digest == d
  }

  /** Removing the files behind a row that is gone; either removal may fail. */
  function CleanUp(s: Store, k: Key, d: Digest, selected: Option<string>, receiptFails: bool, blobFails: bool): Outcome<Removal> {
    var receiptSteps := if receiptFails || k !in s.receipts then [] else [DropReceipt(k)];
    var pending := receiptSteps == [];
    if !RowsReadable(s) then Outcome(receiptSteps, Err(RowDrifted))
    else if Used(s, d) then Outcome(receiptSteps, Ok(Removal(selected, false, pending)))
    else if blobFails || d !in s.blobs then Outcome(receiptSteps, Ok(Removal(selected, false, true)))
    else Outcome(receiptSteps + [DropBlob(d)], Ok(Removal(selected, true, pending)))
  }

  function Uninstall(s: Store, k: Key, now: Instant, receiptFails: bool, blobFails: bool): Outcome<Removal> {
    var verified := VerifyInstalled(s, k);
    if verified.Err? then Outcome([], Err(verified.error))
    else
      var sel := SelectionOf(s, k.id);
      if sel.Err? then Outcome([], Err(sel.error))
      else
        var left := if sel.value.Some? then Unselected(sel.value.value, k.version, now) else None;
        var after := Do(s, DropRow(k, left));
        var reread := SelectionOf(after, k.id);
        if reread.Err? then Outcome([DropRow(k, left)], Err(reread.error))
        else
          var selected := if reread.value.Some? then Some(reread.value.value.current) else None;
          Chain(Outcome([DropRow(k, left)], Ok(())), CleanUp(after, k, verified.value.digest, selected, receiptFails, blobFails))
  }

  // ---- Recovery and garbage collection ----

  datatype Report = Report(installed: nat, selected: nat, orphanBlobs: nat, orphanReceipts: nat)

  function Digests(s: Store): set<Digest> {
    set k | k in s.rows :: s.rows[k].digest
  }

  function Ids(s: Store): set<string> {
    set k | k in s.rows :: k.id
  }

  predicate Recoverable(s: Store) {
    && RowsReadable(s)
    && (forall k :: k in s.rows ==> VerifyInstalled(s, k).Ok?)
    && (forall k :: k in s.rows ==> SelectionOf(s, k.id).Ok?)
  }

  function RecoveryReport(s: Store): Report {
    Report(|s.rows|, |set id | id in Ids(s) && id in s.selections|, |s.blobs.Keys - Digests(s)|, |s.receipts.Keys - s.rows.Keys|)
  }

  /** The removals of a collection, in the order in which the directories are listed. */
  function BlobDrops(blobs: seq<Digest>, keep: set<Digest>): seq<Step> {
    if blobs == [] then []
    else if blobs[0] in keep then BlobDrops(blobs[1..], keep)
    else [DropBlob(blobs[0])] + BlobDrops(blobs[1..], keep)
  }

  function ReceiptDrops(receipts: seq<Key>, keep: set<Key>): seq<Step> {
    if receipts == [] then []
    else if receipts[0] in keep then ReceiptDrops(receipts[1..], keep)
    else [DropReceipt(receipts[0])] + ReceiptDrops(receipts[1..], keep)
  }

  function CollectSteps(s: Store, blobs: seq<Digest>, receipts: seq<Key>): seq<Step> {
    BlobDrops(blobs, Digests(s)) + ReceiptDrops(receipts, s.rows.Keys)
  }

  ghost predicate Lists<T(!new)>(order: seq<T>, all: set<T>) {
    Distinct(order) && forall x :: x in order <==> x in all
  }
}
