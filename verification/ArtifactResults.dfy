/** What each operation of the artifact store achieves when it completes, when it succeeds at all, and that it
    is safe to crash anywhere in it. */
module ArtifactResults {
  import opened Common
  import opened ArtifactSpec
  import opened ArtifactProofs

  // ---- Installing ----

  lemma {:induction false} FirstSlashAt(s: string, i: nat)
    requires i < |s| && s[i] == '/' && forall j :: 0 <= j < i ==> s[j] != '/'
    ensures FirstSlash(s) == i
    decreases i
  {
    if i > 0 {
      FirstSlashAt(s[1..], i - 1);
    }
  }

  /** The database takes every capability name the store takes, up to 128 characters: only the longest ones,
      of 64 characters on each side of the slash, are refused. */
  lemma RowIdLimit(id: string)
    requires CapabilityText(id)
    ensures RowIdText(id) <==> |id| <= 128
  {
    if !SegmentText(id) {
      var n := FirstSlash(id);
      SlashAtFirst(id);
      assert forall i :: 0 <= i < n ==> id[i] == id[..n][i];
      assert forall i :: n < i < |id| ==> id[i] == id[n + 1..][i - n - 1];
    }
  }

  lemma {:induction false} SlashAtFirst(s: string)
    requires FirstSlash(s) < |s|
    ensures s[FirstSlash(s)] == '/'
  {
    if s[0] != '/' { SlashAtFirst(s[1..]); }
  }

  /** A receipt of another plan or device is already filed for the version. */
  predicate ReceiptConflicts(s: Store, plan: InstallPlan) {
    plan.key in s.receipts && s.receipts[plan.key].(installedAt := 0) != NewReceipt(plan, 0)
  }

  /** The whole of what an install depends on. */
  predicate InstallAccepted(s: Store, plan: InstallPlan, source: Option<Digest>) {
    PlanOk(plan) && source == Some(plan.digest) && !ReceiptConflicts(s, plan) && |plan.key.id| <= 128 && plan.device == s.device
  }

  function ReceiptFor(s: Store, plan: InstallPlan, now: Instant): Receipt {
    if plan.key in s.receipts then s.receipts[plan.key] else NewReceipt(plan, now)
  }

  /** Blob, receipt and row are there; the version is selected if none was. */
  function Installed(s: Store, plan: InstallPlan, now: Instant): Store {
    var r := ReceiptFor(s, plan, now);
    s.(blobs := s.blobs[plan.digest := plan.digest],
       receipts := s.receipts[plan.key := r],
       rows := s.rows[plan.key := Row(plan.digest, plan.device, r.installedAt)],
       selections := if plan.key.id in s.selections then s.selections
                     else s.selections[plan.key.id := Selection(plan.key.version, None, now)])
  }

  lemma LandBlobWorks(s: Store, d: Digest)
    requires StoreInv(s)
    ensures var o := LandBlob(s, d);
            o.result.Ok? && Safe(s, o.steps) && Run(s, o.steps) == s.(blobs := s.blobs[d := d])
  {
    hide RowsBacked, SelectionsInstalled, ReceiptsFiled;
    if d in s.blobs {
      SafeNone(s);
      assert s.blobs == s.blobs[d := d];
    } else {
      PutBlobKeeps(s, d);
      SafeOne(s, PutBlob(d));
    }
  }

  lemma PersistReceiptWorks(s: Store, plan: InstallPlan, now: Instant)
    requires StoreInv(s)
    ensures var o := PersistReceipt(s, NewReceipt(plan, now)); var r := ReceiptFor(s, plan, now);
            && Safe(s, o.steps)
            && (o.result.Ok? <==> !ReceiptConflicts(s, plan))
            && (o.result.Ok? ==> o.result.value == r && Run(s, o.steps) == s.(receipts := s.receipts[plan.key := r]))
  {
    hide RowsBacked, SelectionsInstalled, BlobsNamed;
    if plan.key in s.receipts {
      SafeNone(s);
      assert s.receipts == s.receipts[plan.key := s.receipts[plan.key]];
      var e := s.receipts[plan.key];
      assert e.(installedAt := now) == NewReceipt(plan, now) <==> e.(installedAt := 0) == NewReceipt(plan, 0);
    } else {
      PutReceiptKeeps(s, NewReceipt(plan, now));
      SafeOne(s, PutReceipt(NewReceipt(plan, now)));
    }
  }

  /** The receipt and the blob of a plan are in place. */
  ghost predicate Landed(s: Store, plan: InstallPlan, r: Receipt) {
    && PlanOk(plan) && plan.digest in s.blobs && plan.key in s.receipts && s.receipts[plan.key] == r
    && r.digest == plan.digest && r.device == plan.device
  }

  function RowOf(plan: InstallPlan, r: Receipt): Row {
    Row(plan.digest, plan.device, r.installedAt)
  }

  lemma SaveRowWorks(s: Store, plan: InstallPlan, r: Receipt)
    requires StoreInv(s) && Landed(s, plan, r)
    ensures var o := SaveRow(s, plan.key, RowOf(plan, r));
            && Safe(s, o.steps)
            && (o.result.Ok? <==> |plan.key.id| <= 128 && plan.device == s.device)
            && (o.result.Ok? ==> KeyOk(plan.key) && Run(s, o.steps) == s.(rows := s.rows[plan.key := RowOf(plan, r)]))
  {
    hide CapabilityText, RowIdText, VersionText, DigestText, ReceiptsFiled, SelectionsInstalled, BlobsNamed;
    RowIdLimit(plan.key.id);
    SafeNone(s);
    if plan.key in s.rows {
      assert Backed(s, plan.key);
      assert s.rows == s.rows[plan.key := s.rows[plan.key]];
    } else if RowIdText(plan.key.id) && plan.device == s.device {
      PutRowKeeps(s, plan.key, RowOf(plan, r));
      SafeOne(s, PutRow(plan.key, RowOf(plan, r)));
    }
  }

  lemma SelectWorks(s: Store, k: Key, now: Instant)
    requires StoreInv(s) && k in s.rows
    ensures var o := Select(s, k, now); var t := Run(s, o.steps);
            && Safe(s, o.steps) && StoreInv(t) && o.result.Ok? && k.id in t.selections
            && t == s.(selections := t.selections) && o.result.value == t.selections[k.id]
            && t.selections == s.selections[k.id :=
                 if k.id !in s.selections then Selection(k.version, None, now)
                 else if s.selections[k.id].current == k.version then s.selections[k.id]
                 else Selection(k.version, Some(s.selections[k.id].current), now)]
  {
    hide StoreInv, KeyOk, Capability, SelectionOf;
    RowPresent(s, k);
    KeyOkParts(k);
    SelectionReadable(s, k.id);
    InvSelection(s, k.id);
    if k.id in s.selections && s.selections[k.id].current == k.version {
      SafeNone(s);
      assert s.selections == s.selections[k.id := s.selections[k.id]];
    } else {
      var sel := Selection(k.version, if k.id in s.selections then Some(s.selections[k.id].current) else None, now);
      PutSelectionKeeps(s, k.id, sel);
      SafeOne(s, PutSelection(k.id, sel));
    }
  }

  lemma SelectIfNoneWorks(s: Store, k: Key, now: Instant)
    requires StoreInv(s) && k in s.rows
    ensures var o := SelectIfNone(s, k, now);
            && Safe(s, o.steps) && o.result.Ok?
            && Run(s, o.steps) == s.(selections :=
                 if k.id in s.selections then s.selections else s.selections[k.id := Selection(k.version, None, now)])
  {
    hide StoreInv, KeyOk, Capability, SelectionOf, Select, Safe, SelectionInstalled;
    RowPresent(s, k);
    KeyOkParts(k);
    SelectionReadable(s, k.id);
    SelectWorks(s, k, now);
    SafeNone(s);
  }

  lemma SafeChain<A, B>(s: Store, first: Outcome<A>, second: Outcome<B>)
    requires Safe(s, first.steps) && (first.result.Ok? ==> Safe(Run(s, first.steps), second.steps))
    ensures Safe(s, Chain(first, second).steps)
    ensures first.result.Ok? ==> Run(s, Chain(first, second).steps) == Run(Run(s, first.steps), second.steps)
  {
    hide Safe, Run;
    if first.result.Ok? {
      SafeAppend(s, first.steps, second.steps);
      RunAppend(s, first.steps, second.steps);
    }
  }

  lemma SafeKeeps(s: Store, steps: seq<Step>)
    requires Safe(s, steps)
    ensures StoreInv(s) && StoreInv(Run(s, steps))
  {
    hide StoreInv;
    SafeAtEveryCrash(s, steps, |steps|);
    assert steps[..|steps|] == steps;
  }

  function Recorded(s: Store, plan: InstallPlan, r: Receipt, now: Instant): Store {
    s.(rows := s.rows[plan.key := RowOf(plan, r)],
       selections := if plan.key.id in s.selections then s.selections
                     else s.selections[plan.key.id := Selection(plan.key.version, None, now)])
  }

  lemma RecordInstallWorks(s: Store, plan: InstallPlan, r: Receipt, now: Instant)
    requires StoreInv(s) && Landed(s, plan, r)
    ensures var o := RecordInstall(s, plan, r, now);
            && Safe(s, o.steps)
            && (o.result.Ok? <==> |plan.key.id| <= 128 && plan.device == s.device)
            && (o.result.Ok? ==> o.result.value == r)
            && (o.result.Ok? ==> Run(s, o.steps) == Recorded(s, plan, r, now))
  {
    hide StoreInv, KeyOk, SaveRow, SelectIfNone, Safe, PlanOk, Landed;
    var row := SaveRow(s, plan.key, RowOf(plan, r));
    SaveRowWorks(s, plan, r);
    var t := Run(s, row.steps);
    SafeKeeps(s, row.steps);
    var done := Outcome([], Ok(r));
    var selected := SelectIfNone(t, plan.key, now);
    if row.result.Ok? {
      SelectIfNoneWorks(t, plan.key, now);
      var u := Run(t, selected.steps);
      SafeKeeps(t, selected.steps);
      SafeNone(u);
      SafeChain(t, selected, done);
    }
    SafeChain(s, row, Chain(selected, done));
  }

  lemma ReceiptForMatches(s: Store, plan: InstallPlan, now: Instant)
    ensures !ReceiptConflicts(s, plan) ==>
      var r := ReceiptFor(s, plan, now); r.key == plan.key && r.digest == plan.digest && r.device == plan.device
  {
  }

  lemma PersistAndRecordWorks(s: Store, plan: InstallPlan, now: Instant)
    requires StoreInv(s) && PlanOk(plan) && plan.digest in s.blobs
    ensures var o := PersistAndRecord(s, plan, now);
            && Safe(s, o.steps)
            && (o.result.Ok? <==> !ReceiptConflicts(s, plan) && |plan.key.id| <= 128 && plan.device == s.device)
            && (o.result.Ok? ==> o.result.value == ReceiptFor(s, plan, now))
            && (o.result.Ok? ==> Run(s, o.steps) == Installed(s, plan, now).(blobs := s.blobs))
  {
    hide StoreInv, KeyOk, RecordInstall, PersistReceipt, Safe, PlanOk, ReceiptConflicts;
    var receipt := PersistReceipt(s, NewReceipt(plan, now));
    PersistReceiptWorks(s, plan, now);
    if receipt.result.Ok? {
      var r := receipt.result.value;
      var t := Run(s, receipt.steps);
      ReceiptForMatches(s, plan, now);
      SafeKeeps(s, receipt.steps);
      RecordInstallWorks(t, plan, r, now);
      SafeChain(s, receipt, RecordInstall(t, plan, r, now));
    }
  }

  /** An install succeeds exactly when it is accepted; then blob, receipt, row and selection are as they
      should be, whatever was there before, and wherever it crashes or throws the invariant holds. */
  lemma InstallWorks(s: Store, plan: InstallPlan, source: Option<Digest>, now: Instant)
    requires StoreInv(s)
    ensures var o := Install(s, plan, source, now);
            && Safe(s, o.steps)
            && (o.result.Ok? <==> InstallAccepted(s, plan, source))
            && (o.result.Ok? ==> o.result.value == ReceiptFor(s, plan, now) && Run(s, o.steps) == Installed(s, plan, now))
  {
    hide StoreInv, KeyOk, PersistAndRecord, LandBlob, Safe, PlanOk;
    var check, landed := CheckSource(plan, source), LandBlob(s, plan.digest);
    SafeNone(s);
    LandBlobWorks(s, plan.digest);
    var t := Run(s, landed.steps);
    SafeKeeps(s, landed.steps);
    var rest := PersistAndRecord(t, plan, now);
    if check.result.Ok? {
      PersistAndRecordWorks(t, plan, now);
      SafeChain(s, landed, rest);
    }
    SafeChain(s, check, Chain(landed, rest));
  }

  /** An install whose name is longer than the database takes lands its blob and its receipt and is then
      refused; no row is written. */
  lemma LongNamesLandAndAreRefused(s: Store, plan: InstallPlan, now: Instant)
    requires StoreInv(s) && PlanOk(plan) && plan.device == s.device && !ReceiptConflicts(s, plan) && |plan.key.id| > 128
    ensures var o := Install(s, plan, Some(plan.digest), now);
            && o.result == Err(RowRefused)
            && Run(s, o.steps) == s.(blobs := s.blobs[plan.digest := plan.digest],
                                     receipts := s.receipts[plan.key := ReceiptFor(s, plan, now)])
  {
    hide StoreInv, CapabilityText, RowIdText, LandBlob, PersistReceipt, Safe, SelectIfNone;
    RowIdLimit(plan.key.id);
    var landed := LandBlob(s, plan.digest);
    LandBlobWorks(s, plan.digest);
    var t := Run(s, landed.steps);
    SafeKeeps(s, landed.steps);
    PersistReceiptWorks(t, plan, now);
    var receipt := PersistReceipt(t, NewReceipt(plan, now));
    var u := Run(t, receipt.steps);
    assert SaveRow(u, plan.key, RowOf(plan, receipt.result.value)) == Outcome([], Err(RowRefused));
    assert receipt.steps + [] == receipt.steps;
    RunAppend(s, landed.steps, receipt.steps);
    assert [] + (landed.steps + receipt.steps) == landed.steps + receipt.steps;
  }

  function Repeat(c: char, n: nat): (s: string)
    ensures |s| == n && forall i :: 0 <= i < n ==> s[i] == c
  {
    seq(n, _ => c)
  }

  /** A name of 129 characters that the store takes. */
  function LongestName(): string {
    Repeat('a', 64) + "/" + Repeat('a', 64)
  }

  lemma LongestNameAccepted()
    ensures |LongestName()| == 129 && CapabilityText(LongestName()) && !RowIdText(LongestName())
  {
    var name, half := LongestName(), Repeat('a', 64);
    assert name == half + "/" + half;
    assert name[..64] == half && name[65..] == half && name[64] == '/';
    hide LongestName, Repeat, RowIdText;
    assert forall j :: 0 <= j < 64 ==> name[j] == half[j];
    FirstSlashAt(name, 64);
    assert SegmentText(half);
    RowIdLimit(name);
  }

  const LONG_PLAN := InstallPlan("plan", "device", Key(LongestName(), "1.0.0"), "sha256:" + Repeat('0', 64), true)

  lemma LongPlanOk()
    ensures PlanOk(LONG_PLAN)
  {
    hide CapabilityText, LongestName, VersionText, DigestText;
    LongestNameAccepted();
    ZeroDigestOk();
    VersionOneOk();
    assert forall i :: 0 <= i < |"device"| ==> "device"[i] != '/' && "device"[i] != '\\';
  }

  lemma ZeroDigestOk()
    ensures DigestText("sha256:" + Repeat('0', 64))
  {
    var d := "sha256:" + Repeat('0', 64);
    assert d[..7] == "sha256:" && forall i :: 7 <= i < 71 ==> d[i] == Repeat('0', 64)[i - 7];
  }

  lemma VersionOneOk()
    ensures VersionText("1.0.0")
  {
    assert "1.0.0"[2..] == "0.0" && "0.0"[2..] == "0" && "0"[1..] == "";
    assert DigitRun(".0.0") == 0 && DigitRun(".0") == 0 && DigitRun("") == 0;
    assert "1.0.0"[1..] == ".0.0" && "0.0"[1..] == ".0";
    assert DigitRun("1.0.0") == 1 && DigitRun("0.0") == 1 && DigitRun("0") == 1;
  }

  /** Installing it into an empty store leaves a blob and a receipt that no row needs. */
  lemma LongestNameIsRefused(now: Instant)
    ensures PlanOk(LONG_PLAN)
    ensures var s := EmptyStore(LONG_PLAN.device); var o := Install(s, LONG_PLAN, Some(LONG_PLAN.digest), now);
            && o.result == Err(RowRefused) && Run(s, o.steps).rows == map[]
            && Run(s, o.steps).blobs.Keys == {LONG_PLAN.digest} && Run(s, o.steps).receipts.Keys == {LONG_PLAN.key}
  {
    hide PlanOk, Install, Run, LongestName;
    LongestNameAccepted();
    LongPlanOk();
    EmptyStoreInv(LONG_PLAN.device);
    LongNamesLandAndAreRefused(EmptyStore(LONG_PLAN.device), LONG_PLAN, now);
  }

  // ---- Retrying after a crash ----

  predicate StepOf(plan: InstallPlan, step: Step) {
    step.PutBlob? || step.PutRow? || step.PutSelection?
    || (step.PutReceipt? && step.receipt.(installedAt := 0) == NewReceipt(plan, 0))
  }

  lemma InstallStepsOwn(s: Store, plan: InstallPlan, source: Option<Digest>, now: Instant)
    ensures forall step :: step in Install(s, plan, source, now).steps ==> StepOf(plan, step)
  {
    hide Capability, SelectionOf;
  }

  lemma {:induction false} StillAccepted(s: Store, plan: InstallPlan, source: Option<Digest>, steps: seq<Step>)
    requires InstallAccepted(s, plan, source) && forall step :: step in steps ==> StepOf(plan, step)
    ensures InstallAccepted(Run(s, steps), plan, source)
    decreases |steps|
  {
    hide PlanOk;
    if steps != [] {
      assert StepOf(plan, steps[0]);
      assert forall step :: step in steps[1..] ==> step in steps;
      StillAccepted(Do(s, steps[0]), plan, source, steps[1..]);
    }
  }

  /** An install that crashed anywhere completes when it is tried again, at whatever time. */
  lemma RetryCompletes(s: Store, plan: InstallPlan, source: Option<Digest>, now: Instant, k: nat, later: Instant)
    requires StoreInv(s) && InstallAccepted(s, plan, source) && k <= |Install(s, plan, source, now).steps|
    ensures var u := Run(s, Install(s, plan, source, now).steps[..k]);
            var again := Install(u, plan, source, later);
            && again.result.Ok? && Run(u, again.steps) == Installed(u, plan, later)
            && VerifyInstalled(Run(u, again.steps), plan.key) == Ok(again.result.value)
  {
    hide StoreInv, Install, Safe, VerifyInstalled, InstallAccepted;
    var steps := Install(s, plan, source, now).steps;
    InstallWorks(s, plan, source, now);
    SafeAtEveryCrash(s, steps, k);
    InstallStepsOwn(s, plan, source, now);
    assert forall step :: step in steps[..k] ==> step in steps;
    StillAccepted(s, plan, source, steps[..k]);
    var u := Run(s, steps[..k]);
    InstallWorks(u, plan, source, later);
    var again := Install(u, plan, source, later).steps;
    SafeKeeps(u, again);
    InstalledVerifies(Run(u, again), plan.key);
  }

  // ---- Upgrading and rolling back ----

  predicate UpgradeAccepted(s: Store, plan: InstallPlan, source: Option<Digest>) {
    && plan.key.id in s.selections && s.selections[plan.key.id].current != plan.key.version
    && InstallAccepted(s, plan, source)
  }

  function Upgraded(s: Store, plan: InstallPlan, now: Instant): Store
    requires plan.key.id in s.selections
  {
    var t := Installed(s, plan, now);
    t.(selections := s.selections[plan.key.id := Selection(plan.key.version, Some(s.selections[plan.key.id].current), now)])
  }

  /** An upgrade installs the version and selects it, with the version before it as the one to go back to. */
  lemma UpgradeWorks(s: Store, plan: InstallPlan, source: Option<Digest>, now: Instant)
    requires StoreInv(s)
    ensures var o := Upgrade(s, plan, source, now);
            && Safe(s, o.steps)
            && (o.result.Ok? <==> UpgradeAccepted(s, plan, source))
            && (o.result.Ok? ==> Run(s, o.steps) == Upgraded(s, plan, now))
            && (o.result.Ok? ==> o.result.value == Upgraded(s, plan, now).selections[plan.key.id])
  {
    hide StoreInv, Install, Select, SelectionOf, Safe, PlanOk, ReceiptConflicts;
    var id := plan.key.id;
    SelectionReadable(s, id);
    SafeNone(s);
    InstallWorks(s, plan, source, now);
    if RowIdText(id) && id in s.selections && s.selections[id].current != plan.key.version {
      var installed := Install(s, plan, source, now);
      var t := Run(s, installed.steps);
      SafeKeeps(s, installed.steps);
      if installed.result.Ok? {
        SelectWorks(t, plan.key, now);
      }
      SafeChain(s, installed, Select(t, plan.key, now));
    }
  }

  /** A rollback swaps current and previous version, succeeds exactly when there is a previous one, and returns the
      selection it leaves. */
  lemma RollbackWorks(s: Store, id: string, now: Instant)
    requires StoreInv(s)
    ensures var o := Rollback(s, id, now);
            && Safe(s, o.steps)
            && (o.result.Ok? <==> id in s.selections && s.selections[id].previous.Some?)
            && (o.result.Ok? ==> var sel := s.selections[id];
                 Run(s, o.steps) == s.(selections := s.selections[id := Selection(sel.previous.value, Some(sel.current), now)]))
            && (o.result.Ok? ==> id in Run(s, o.steps).selections && o.result.value == Run(s, o.steps).selections[id])
  {
    hide StoreInv, SelectionOf, VerifyInstalled, Safe, RowIdText;
    SelectionReadable(s, id);
    InvSelection(s, id);
    SafeNone(s);
    if id in s.selections && s.selections[id].previous.Some? {
      var sel := s.selections[id];
      InstalledVerifies(s, Key(id, sel.previous.value));
      var next := Selection(sel.previous.value, Some(sel.current), now);
      PutSelectionKeeps(s, id, next);
      SafeOne(s, PutSelection(id, next));
    }
  }

  /** Rolling back twice restores the selection (but for its timestamp) and changes nothing else. */
  lemma RollbackTwiceRestores(s: Store, id: string, first: Instant, second: Instant)
    requires StoreInv(s) && Rollback(s, id, first).result.Ok?
    ensures var t := Run(s, Rollback(s, id, first).steps);
            && Rollback(t, id, second).result.Ok?
            && Run(t, Rollback(t, id, second).steps) == s.(selections := s.selections[id := s.selections[id].(updatedAt := second)])
  {
    hide StoreInv, Rollback, Safe;
    RollbackWorks(s, id, first);
    SafeKeeps(s, Rollback(s, id, first).steps);
    var t := Run(s, Rollback(s, id, first).steps);
    RollbackWorks(t, id, second);
    assert t.selections[id := s.selections[id].(updatedAt := second)] == s.selections[id := s.selections[id].(updatedAt := second)];
  }

  /** Rolling back an upgrade selects the version before it again; nothing else of the upgrade is undone. */
  lemma RollbackUndoesUpgrade(s: Store, plan: InstallPlan, source: Option<Digest>, now: Instant, later: Instant)
    requires StoreInv(s) && Upgrade(s, plan, source, now).result.Ok?
    ensures plan.key.id in s.selections && s.selections[plan.key.id].current != plan.key.version
    ensures var t := Run(s, Upgrade(s, plan, source, now).steps); var o := Rollback(t, plan.key.id, later);
            && o.result.Ok?
            && Run(t, o.steps) == Installed(s, plan, now).(selections := s.selections[plan.key.id :=
                 Selection(s.selections[plan.key.id].current, Some(plan.key.version), later)])
  {
    hide StoreInv, Rollback, Upgrade, Safe, InstallAccepted, Run, ReceiptFor;
    UpgradeWorks(s, plan, source, now);
    SafeKeeps(s, Upgrade(s, plan, source, now).steps);
    RollbackWorks(Upgraded(s, plan, now), plan.key.id, later);
  }

  // ---- Uninstalling ----

  function Left(s: Store, k: Key, now: Instant): Option<Selection> {
    if k.id in s.selections then Unselected(s.selections[k.id], k.version, now) else None
  }

  /** A version is gone: its row, what selected it, its receipt, and its blob when no other version uses it
      (the file removals may fail). */
  function Uninstalled(s: Store, k: Key, now: Instant, receiptFails: bool, blobFails: bool): Store
    requires k in s.rows
  {
    var t := Do(s, DropRow(k, Left(s, k, now)));
    var u := if receiptFails then t else t.(receipts := t.receipts - {k});
    if blobFails || Used(t, s.rows[k].digest) then u else u.(blobs := u.blobs - {s.rows[k].digest})
  }

  lemma LeftInstalled(s: Store, k: Key, now: Instant)
    requires StoreInv(s)
    ensures var left := Left(s, k, now); left.Some? ==>
              SelectionInstalled(s, k.id, left.value) && left.value.current != k.version && left.value.previous != Some(k.version)
    ensures k.id in s.selections && Left(s, k, now) == None ==> s.selections[k.id].current == k.version
  {
    hide StoreInv;
    InvSelection(s, k.id);
  }

  lemma AllRowsReadable(s: Store)
    requires StoreInv(s)
    ensures RowsReadable(s)
  {
    hide StoreInv, Present, Capability;
    forall k | k in s.rows ensures Present(s, k) { RowPresent(s, k); }
  }

  lemma CleanUpWorks(s: Store, k: Key, d: Digest, selected: Option<string>, receiptFails: bool, blobFails: bool)
    requires StoreInv(s) && k !in s.rows && k in s.receipts && d in s.blobs
    ensures var o := CleanUp(s, k, d, selected, receiptFails, blobFails);
            var u := if receiptFails then s else s.(receipts := s.receipts - {k});
            && Safe(s, o.steps)
            && o.result == Ok(Removal(selected, !Used(s, d) && !blobFails, receiptFails || (!Used(s, d) && blobFails)))
            && Run(s, o.steps) == if blobFails || Used(s, d) then u else u.(blobs := u.blobs - {d})
  {
    hide StoreInv, Used, RowsReadable, Safe;
    AllRowsReadable(s);
    SafeNone(s);
    DropReceiptKeeps(s, k);
    SafeOne(s, DropReceipt(k));
    var u := if receiptFails then s else Do(s, DropReceipt(k));
    var receiptSteps := if receiptFails then [] else [DropReceipt(k)];
    if !blobFails && !Used(s, d) {
      StillUnused(s, u, d);
      DropBlobKeeps(u, d);
      SafeOne(u, DropBlob(d));
      SafeAppend(s, receiptSteps, [DropBlob(d)]);
      RunAppend(s, receiptSteps, [DropBlob(d)]);
    }
  }

  lemma StillUnused(s: Store, t: Store, d: Digest)
    requires s.rows == t.rows
    ensures Used(s, d) <==> Used(t, d)
  {
    if Used(s, d) { var k :| k in s.rows && s.rows[k].digest == d; assert t.rows[k].digest == d; }
    if Used(t, d) { var k :| k in t.rows && t.rows[k].digest == d; assert s.rows[k].digest == d; }
  }

  /** What is reported after version k is gone: the version now selected, whether its blob went, and whether a file
      that no installed version needs is still there. */
  function Reported(t: Store, k: Key, d: Digest): Removal {
    Removal(if k.id in t.selections then Some(t.selections[k.id].current) else None,
            d !in t.blobs, k in t.receipts || (d in t.blobs && !Used(t, d)))
  }

  /** An uninstall succeeds exactly for an installed version, and reports what it leaves; a crash anywhere in it
      leaves the invariant. */
  lemma UninstallWorks(s: Store, k: Key, now: Instant, receiptFails: bool, blobFails: bool)
    requires StoreInv(s)
    ensures var o := Uninstall(s, k, now, receiptFails, blobFails);
            && Safe(s, o.steps)
            && (o.result.Ok? <==> k in s.rows)
            && (o.result.Ok? ==> Run(s, o.steps) == Uninstalled(s, k, now, receiptFails, blobFails))
            && (o.result.Ok? ==> o.result.value == Reported(Run(s, o.steps), k, s.rows[k].digest))
  {
    hide StoreInv, Used, RowsReadable, Safe, SelectionOf, VerifyInstalled, CleanUp, KeyOk, RowIdText, Present;
    SafeNone(s);
    InstalledVerifies(s, k);
    RowPresent(s, k);
    KeyOkParts(k);
    SelectionReadable(s, k.id);
    if k in s.rows {
      var left := Left(s, k, now);
      var t := Do(s, DropRow(k, left));
      LeftInstalled(s, k, now);
      DropRowKeeps(s, k, left);
      SelectionReadable(t, k.id);
      SafeOne(s, DropRow(k, left));
      var selected := if k.id in t.selections then Some(t.selections[k.id].current) else None;
      BlobOfRow(s, k);
      CleanUpWorks(t, k, s.rows[k].digest, selected, receiptFails, blobFails);
      SafeChain(s, Outcome([DropRow(k, left)], Ok(())), CleanUp(t, k, s.rows[k].digest, selected, receiptFails, blobFails));
      StillUnused(t, Run(t, CleanUp(t, k, s.rows[k].digest, selected, receiptFails, blobFails).steps), s.rows[k].digest);
    }
  }

  /** What an uninstall does to the selection: the version before becomes current if the current one went, a previous one
      that went is forgotten, and every other selection stays. */
  lemma UninstallSelects(s: Store, k: Key, now: Instant, receiptFails: bool, blobFails: bool)
    requires StoreInv(s) && k in s.rows
    ensures var t := Run(s, Uninstall(s, k, now, receiptFails, blobFails).steps);
            && (forall id :: id != k.id ==> (id in t.selections <==> id in s.selections) && (id in s.selections ==> t.selections[id] == s.selections[id]))
            && (k.id in s.selections ==>
                  var sel := s.selections[k.id];
                  if sel.current == k.version then
                    if sel.previous.Some? then k.id in t.selections && t.selections[k.id] == Selection(sel.previous.value, None, now)
                    else k.id !in t.selections
                  else k.id in t.selections && t.selections[k.id] == if sel.previous == Some(k.version) then Selection(sel.current, None, now) else sel)
  {
    hide StoreInv, Uninstall, Run, Safe, Used;
    UninstallWorks(s, k, now, receiptFails, blobFails);
  }

  lemma BlobOfRow(s: Store, k: Key)
    requires StoreInv(s) && k in s.rows
    ensures k in s.receipts && s.rows[k].digest in s.blobs
  {
    assert Backed(s, k);
  }

  /** Uninstalling a version just installed leaves the installed versions and the selections as they were. */
  lemma UninstallUndoesInstall(s: Store, plan: InstallPlan, source: Option<Digest>, now: Instant, later: Instant,
                               receiptFails: bool, blobFails: bool)
    requires StoreInv(s) && plan.key !in s.rows && Install(s, plan, source, now).result.Ok?
    ensures var t := Run(s, Install(s, plan, source, now).steps);
            var o := Uninstall(t, plan.key, later, receiptFails, blobFails);
            o.result.Ok? && Run(t, o.steps).rows == s.rows && Run(t, o.steps).selections == s.selections
  {
    hide StoreInv, Safe, Install, Uninstall, InstallAccepted, Run, ReceiptFor, Used;
    InstallWorks(s, plan, source, now);
    SafeKeeps(s, Install(s, plan, source, now).steps);
    var t := Installed(s, plan, now);
    UninstallWorks(t, plan.key, later, receiptFails, blobFails);
    NotSelected(s, plan.key);
    assert t.rows - {plan.key} == s.rows;
    assert WithSelection(t.selections, plan.key.id, Left(t, plan.key, later)) == s.selections;
  }

  lemma NotSelected(s: Store, k: Key)
    requires StoreInv(s) && k !in s.rows
    ensures k.id in s.selections ==> s.selections[k.id].current != k.version && s.selections[k.id].previous != Some(k.version)
  {
    InvSelection(s, k.id);
  }

  // ---- Garbage collection ----

  lemma {:induction false} BlobDropsWork(s: Store, blobs: seq<Digest>)
    requires StoreInv(s)
    ensures var steps := BlobDrops(blobs, Digests(s));
            && Safe(s, steps)
            && Run(s, steps) == s.(blobs := map d | d in s.blobs && (d in Digests(s) || d !in blobs) :: s.blobs[d])
    decreases |blobs|
  {
    hide StoreInv, Safe;
    if blobs == [] {
      SafeNone(s);
      assert s.blobs == map d | d in s.blobs && (d in Digests(s) || d !in blobs) :: s.blobs[d];
    } else {
      var b, rest := blobs[0], blobs[1..];
      assert blobs == [b] + rest;
      if b in Digests(s) {
        BlobDropsWork(s, rest);
        assert forall d :: d in s.blobs ==> ((d in Digests(s) || d !in rest) <==> (d in Digests(s) || d !in blobs));
      } else {
        var t := Do(s, DropBlob(b));
        assert !Used(s, b);
        DropBlobKeeps(s, b);
        SafeOne(s, DropBlob(b));
        assert Digests(t) == Digests(s);
        BlobDropsWork(t, rest);
        SafeAppend(s, [DropBlob(b)], BlobDrops(rest, Digests(s)));
        RunAppend(s, [DropBlob(b)], BlobDrops(rest, Digests(s)));
      }
    }
  }

  lemma {:induction false} ReceiptDropsWork(s: Store, receipts: seq<Key>)
    requires StoreInv(s)
    ensures var steps := ReceiptDrops(receipts, s.rows.Keys);
            && Safe(s, steps)
            && Run(s, steps) == s.(receipts := map k | k in s.receipts && (k in s.rows.Keys || k !in receipts) :: s.receipts[k])
    decreases |receipts|
  {
    hide StoreInv, Safe;
    if receipts == [] {
      SafeNone(s);
      assert s.receipts == map k | k in s.receipts && (k in s.rows.Keys || k !in receipts) :: s.receipts[k];
    } else {
      var r, rest := receipts[0], receipts[1..];
      assert receipts == [r] + rest;
      if r in s.rows {
        ReceiptDropsWork(s, rest);
        assert forall k :: k in s.receipts ==> ((k in s.rows.Keys || k !in rest) <==> (k in s.rows.Keys || k !in receipts));
      } else {
        var t := Do(s, DropReceipt(r));
        DropReceiptKeeps(s, r);
        SafeOne(s, DropReceipt(r));
        ReceiptDropsWork(t, rest);
        SafeAppend(s, [DropReceipt(r)], ReceiptDrops(rest, s.rows.Keys));
        RunAppend(s, [DropReceipt(r)], ReceiptDrops(rest, s.rows.Keys));
      }
    }
  }

  /** A collection can crash anywhere; when it completes no blob and no receipt is left that no installed
      version needs, and everything installed versions need is still there. */
  lemma CollectWorks(s: Store, blobs: seq<Digest>, receipts: seq<Key>)
    requires StoreInv(s) && Lists(blobs, s.blobs.Keys) && Lists(receipts, s.receipts.Keys)
    ensures var steps := CollectSteps(s, blobs, receipts); var t := Run(s, steps);
            && Safe(s, steps)
            && t.blobs.Keys == Digests(s) && t.receipts.Keys == s.rows.Keys
            && t.rows == s.rows && t.selections == s.selections
            && (forall d :: d in t.blobs ==> t.blobs[d] == s.blobs[d]) && (forall k :: k in t.receipts ==> t.receipts[k] == s.receipts[k])
  {
    hide StoreInv, Safe, Run;
    BlobDropsWork(s, blobs);
    var t := Run(s, BlobDrops(blobs, Digests(s)));
    SafeKeeps(s, BlobDrops(blobs, Digests(s)));
    ReceiptDropsWork(t, receipts);
    SafeAppend(s, BlobDrops(blobs, Digests(s)), ReceiptDrops(receipts, t.rows.Keys));
    RunAppend(s, BlobDrops(blobs, Digests(s)), ReceiptDrops(receipts, t.rows.Keys));
    forall k | k in s.rows ensures k in s.receipts && s.rows[k].digest in s.blobs { BlobOfRow(s, k); }
  }

  /** A collection removes as many files as recovery counts orphans, and leaves none. */
  lemma CollectCounts(s: Store, blobs: seq<Digest>, receipts: seq<Key>)
    requires StoreInv(s) && Lists(blobs, s.blobs.Keys) && Lists(receipts, s.receipts.Keys)
    ensures |BlobDrops(blobs, Digests(s))| == RecoveryReport(s).orphanBlobs
    ensures |ReceiptDrops(receipts, s.rows.Keys)| == RecoveryReport(s).orphanReceipts
    ensures var t := Run(s, CollectSteps(s, blobs, receipts)); RecoveryReport(t).orphanBlobs == RecoveryReport(t).orphanReceipts == 0
  {
    hide StoreInv, Run, Safe, BlobDrops, ReceiptDrops, CollectSteps, Digests, Lists, Ids;
    CollectWorks(s, blobs, receipts);
    ListedOutside(blobs, s.blobs.Keys, Digests(s));
    BlobDropsCounted(blobs, Digests(s));
    ListedOutside(receipts, s.receipts.Keys, s.rows.Keys);
    ReceiptDropsCounted(receipts, s.rows.Keys);
    var t := Run(s, CollectSteps(s, blobs, receipts));
    SameDigests(s, t);
    assert t.blobs.Keys - Digests(t) == {} && t.receipts.Keys - t.rows.Keys == {};
  }

  lemma ListedOutside<T(!new)>(list: seq<T>, all: set<T>, keep: set<T>)
    requires Lists(list, all)
    ensures Distinct(list) && (set x | x in list && x !in keep) == all - keep
  {
  }

  lemma SameDigests(s: Store, t: Store)
    requires s.rows == t.rows
    ensures Digests(s) == Digests(t)
  {
  }

  lemma {:induction false} BlobDropsCounted(list: seq<Digest>, keep: set<Digest>)
    requires Distinct(list)
    ensures |BlobDrops(list, keep)| == |set d | d in list && d !in keep|
  {
    if list != [] {
      RestDistinct(list);
      BlobDropsCounted(list[1..], keep);
      var all, more := set d | d in list && d !in keep, set d | d in list[1..] && d !in keep;
      assert all == if list[0] in keep then more else {list[0]} + more;
    }
  }

  lemma {:induction false} ReceiptDropsCounted(list: seq<Key>, keep: set<Key>)
    requires Distinct(list)
    ensures |ReceiptDrops(list, keep)| == |set k | k in list && k !in keep|
  {
    if list != [] {
      RestDistinct(list);
      ReceiptDropsCounted(list[1..], keep);
      var all, more := set k | k in list && k !in keep, set k | k in list[1..] && k !in keep;
      assert all == if list[0] in keep then more else {list[0]} + more;
    }
  }

  lemma RestDistinct<T>(list: seq<T>)
    requires list != [] && Distinct(list)
    ensures Distinct(list[1..]) && list[0] !in list[1..] && list == [list[0]] + list[1..]
  {
    assert forall i :: 0 <= i < |list| - 1 ==> list[1..][i] == list[i + 1];
  }

  // ---- Damage ----

  /** Row, receipt and blob of a version are there, of this device, and agree; no invariant is assumed. */
  predicate Intact(s: Store, k: Key) {
    && CapabilityText(k.id) && RowIdText(k.id) && VersionText(k.version)
    && k in s.rows && s.rows[k].device == s.device && DigestText(s.rows[k].digest)
    && k in s.receipts && s.receipts[k].key == k && s.receipts[k].digest == s.rows[k].digest && s.receipts[k].device == s.rows[k].device
    && s.rows[k].digest in s.blobs && s.blobs[s.rows[k].digest] == s.rows[k].digest
  }

  /** In any store a version verifies exactly when it is intact, with its receipt. */
  lemma VerifiesIffIntact(s: Store, k: Key)
    ensures VerifyInstalled(s, k).Ok? <==> Intact(s, k)
    ensures Intact(s, k) ==> VerifyInstalled(s, k) == Ok(s.receipts[k])
  {
    hide CapabilityText, RowIdText, VersionText, DigestText;
  }

  /** A selection is read exactly when its versions have readable rows; any other is drifted. */
  lemma SelectionReadIff(s: Store, id: string)
    requires RowIdText(id) && id in s.selections
    ensures var sel := s.selections[id];
            SelectionOf(s, id) == if Present(s, Key(id, sel.current)) && (sel.previous.Some? ==> Present(s, Key(id, sel.previous.value)))
                                  then Ok(Some(sel)) else Err(SelectionDrifted)
    ensures forall k :: Present(s, k) <==>
      RowIdText(k.id) && VersionText(k.version) && k in s.rows && s.rows[k].device == s.device && DigestText(s.rows[k].digest)
  {
    hide RowIdText, VersionText, DigestText;
  }

  /** Recovery of any store succeeds exactly when every version is intact and every selection can be read. */
  lemma RecoversIffIntact(s: Store)
    ensures Recoverable(s) <==> forall k :: k in s.rows ==> Intact(s, k) && SelectionOf(s, k.id).Ok?
  {
    hide CapabilityText, RowIdText, VersionText, DigestText, VerifyInstalled, SelectionOf;
    forall k ensures VerifyInstalled(s, k).Ok? <==> Intact(s, k) { VerifiesIffIntact(s, k); }
    forall k | Intact(s, k) ensures Present(s, k) {
    }
  }

  /** If the blob or the receipt of an installed version is lost or replaced, the version no longer verifies, recovery
      fails, and neither a rollback to it nor an uninstall does anything. */
  lemma DamageIsSeen(s: Store, t: Store, k: Key, now: Instant, receiptFails: bool, blobFails: bool)
    requires k in s.rows && t.rows == s.rows && t.device == s.device
    requires || s.rows[k].digest !in t.blobs || t.blobs[s.rows[k].digest] != s.rows[k].digest
             || k !in t.receipts || t.receipts[k].key != k || t.receipts[k].digest != s.rows[k].digest || t.receipts[k].device != s.device
    ensures VerifyInstalled(t, k).Err? && !Recoverable(t)
    ensures Uninstall(t, k, now, receiptFails, blobFails).result.Err? && Uninstall(t, k, now, receiptFails, blobFails).steps == []
    ensures k.id in t.selections && t.selections[k.id].previous == Some(k.version) ==>
      Rollback(t, k.id, now).result.Err? && Rollback(t, k.id, now).steps == []
  {
    hide CapabilityText, RowIdText, VersionText, DigestText, VerifyInstalled;
    VerifiesIffIntact(t, k);
    RecoversIffIntact(t);
  }

  /** A blob file whose content is not what its name says is never taken for the source. */
  lemma DamagedBlobIsRefused(s: Store, plan: InstallPlan, now: Instant)
    requires PlanOk(plan) && plan.digest in s.blobs && s.blobs[plan.digest] != plan.digest
    ensures Install(s, plan, Some(plan.digest), now) == Outcome([], Err(BlobDiffers))
  {
    hide PlanOk, PersistAndRecord;
  }

  /** Rows are immutable: a save succeeds exactly for a well-formed row of this device that is new or the same, and
      changes nothing else. */
  lemma SaveRowMeans(s: Store, k: Key, row: Row)
    ensures var o := SaveRow(s, k, row);
            && (o.result.Ok? <==> && RowIdText(k.id) && VersionText(k.version) && DigestText(row.digest) && row.device == s.device
                                  && (k in s.rows ==> s.rows[k] == row))
            && Run(s, o.steps) == (if o.result.Ok? then s.(rows := s.rows[k := row]) else s)
  {
    hide RowIdText, VersionText, DigestText;
    assert Run(s, []) == s;
    assert [PutRow(k, row)][1..] == [];
    assert Run(s, [PutRow(k, row)]) == Run(Do(s, PutRow(k, row)), []);
    if k in s.rows && s.rows[k] == row { assert s.rows == s.rows[k := row]; }
  }

  // ---- Histories ----

  datatype Operation =
    | OpInstall(plan: InstallPlan, source: Option<Digest>, now: Instant)
    | OpUpgrade(plan: InstallPlan, source: Option<Digest>, now: Instant)
    | OpRollback(id: string, now: Instant)
    | OpUninstall(key: Key, now: Instant, receiptFails: bool, blobFails: bool)
    | OpCollect(blobs: seq<Digest>, receipts: seq<Key>)

  function StepsOf(s: Store, op: Operation): seq<Step> {
    match op
    case OpInstall(plan, source, now) => Install(s, plan, source, now).steps
    case OpUpgrade(plan, source, now) => Upgrade(s, plan, source, now).steps
    case OpRollback(id, now) => Rollback(s, id, now).steps
    case OpUninstall(k, now, receiptFails, blobFails) => Uninstall(s, k, now, receiptFails, blobFails).steps
    case OpCollect(blobs, receipts) => CollectSteps(s, blobs, receipts)
  }

  /** Operations one after the other, each cut short by a crash after some number of steps, or not. */
  function History(s: Store, ops: seq<(Operation, nat)>): Store
    decreases |ops|
  {
    if ops == [] then s
    else
      var steps := StepsOf(s, ops[0].0);
      History(Run(s, if ops[0].1 < |steps| then steps[..ops[0].1] else steps), ops[1..])
  }

  lemma OperationSafe(s: Store, op: Operation)
    requires StoreInv(s)
    ensures Safe(s, StepsOf(s, op))
  {
    hide StoreInv, Safe, Install, Upgrade, Rollback, Uninstall, Run, BlobDrops, ReceiptDrops;
    match op
    case OpInstall(plan, source, now) => InstallWorks(s, plan, source, now);
    case OpUpgrade(plan, source, now) => UpgradeWorks(s, plan, source, now);
    case OpRollback(id, now) => RollbackWorks(s, id, now);
    case OpUninstall(k, now, receiptFails, blobFails) => UninstallWorks(s, k, now, receiptFails, blobFails);
    case OpCollect(blobs, receipts) =>
      BlobDropsWork(s, blobs);
      var t := Run(s, BlobDrops(blobs, Digests(s)));
      SafeKeeps(s, BlobDrops(blobs, Digests(s)));
      ReceiptDropsWork(t, receipts);
      SafeAppend(s, BlobDrops(blobs, Digests(s)), ReceiptDrops(receipts, t.rows.Keys));
  }

  /** After any history of operations and crashes, on a store that starts empty: every installed version has
      its receipt and blob, selections name installed and distinct versions, and recovery succeeds. */
  lemma {:induction false} HistoryKeepsInvariant(s: Store, ops: seq<(Operation, nat)>)
    requires StoreInv(s)
    ensures StoreInv(History(s, ops)) && Recoverable(History(s, ops))
    decreases |ops|
  {
    hide StoreInv, Safe, Recoverable, StepsOf;
    if ops == [] {
      AlwaysRecoverable(s);
    } else {
      var steps := StepsOf(s, ops[0].0);
      var k := if ops[0].1 < |steps| then ops[0].1 else |steps|;
      OperationSafe(s, ops[0].0);
      assert steps[..|steps|] == steps;
      SafeAtEveryCrash(s, steps, k);
      HistoryKeepsInvariant(Run(s, steps[..k]), ops[1..]);
    }
  }

  /** The counts of a recovery: every row, every selection, and the files no row needs. */
  lemma ReportCounts(s: Store)
    requires StoreInv(s)
    ensures RecoveryReport(s) == Report(|s.rows|, |s.selections|, |s.blobs.Keys - Digests(s)|, |s.receipts.Keys - s.rows.Keys|)
  {
    hide RowsBacked, BlobsNamed, ReceiptsFiled;
    var ids := set id | id in Ids(s) && id in s.selections;
    forall id | id in s.selections ensures id in ids {
      assert SelectionInstalled(s, id, s.selections[id]);
      assert Key(id, s.selections[id].current).id in Ids(s);
    }
    assert ids == s.selections.Keys;
  }

  lemma EmptyStoreInv(device: DeviceId)
    ensures StoreInv(EmptyStore(device))
  {
  }
}
